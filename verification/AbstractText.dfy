/** The JSON values a provider response is parsed into; an object keeps its key order. */
module JsonValues {
  datatype Json =
    | Null | Bool(flag: bool) | Int(number: int) | Fraction(text: string) | Text(text: string)
    | Arr(items: seq<Json>) | Obj(fields: seq<(string, Json)>)
}

/** One abstract token: formatting whitespace and the safe text of a key of the inverted index. */
module AbstractTokens {
  import opened Outcomes

  predicate FormattingControl(c: char) { c == '\t' || c == '\n' || c == '\r' }

  predicate Formatting(c: char) { c == ' ' || FormattingControl(c) }

  /** Positions i and j lie in one run of formatting whitespace. */
  predicate SameRun(s: string, i: nat, j: nat)
    requires i < |s| && j < |s|
  {
    (forall k :: i <= k <= j ==> Formatting(s[k])) && (forall k :: j <= k <= i ==> Formatting(s[k]))
  }

  ghost predicate Tainted(s: string, i: nat)
    requires i < |s|
  {
    exists j :: 0 <= j < |s| && SameRun(s, i, j) && FormattingControl(s[j])
  }

  /** What the character at i leaves: a run that holds a control leaves one space, where it starts. */
  ghost function Piece(s: string, i: nat): string
    requires i < |s|
  {
    if !Formatting(s[i]) || !Tainted(s, i) then [s[i]]
    else if i == 0 || !Formatting(s[i - 1]) then " "
    else ""
  }

  ghost function Pieces(s: string, from: nat, to: nat): string
    requires from <= to <= |s|
  {
    if from == to then "" else Pieces(s, from, to - 1) + Piece(s, to - 1)
  }

  ghost function Normalized(s: string): string { Pieces(s, 0, |s|) }

  lemma {:induction false} PiecesSplit(s: string, from: nat, mid: nat, to: nat)
    requires from <= mid <= to <= |s|
    ensures Pieces(s, from, to) == Pieces(s, from, mid) + Pieces(s, mid, to)
  {
    if mid < to {
      PiecesSplit(s, from, mid, to - 1);
    }
  }

  ghost predicate Run(s: string, start: nat, end: nat) {
    && start < end <= |s|
    && (forall k :: start <= k < end ==> Formatting(s[k]))
    && (start == 0 || !Formatting(s[start - 1])) && (end == |s| || !Formatting(s[end]))
  }

  lemma RunTaint(s: string, start: nat, end: nat, i: nat)
    requires Run(s, start, end) && start <= i < end
    ensures Tainted(s, i) <==> exists j :: start <= j < end && FormattingControl(s[j])
  {
    if Tainted(s, i) {
      var j :| 0 <= j < |s| && SameRun(s, i, j) && FormattingControl(s[j]);
      assert start <= j < end;
    }
    if j :| start <= j < end && FormattingControl(s[j]) {
      assert SameRun(s, i, j);
    }
  }

  ghost predicate RunHasControl(s: string, start: nat, end: nat)
    requires start <= end <= |s|
  {
    exists j :: start <= j < end && FormattingControl(s[j])
  }

  lemma RunPiece(s: string, start: nat, end: nat, i: nat)
    requires Run(s, start, end) && start <= i < end
    ensures Piece(s, i) == if !RunHasControl(s, start, end) then [s[i]] else if i == start then " " else ""
  {
    RunTaint(s, start, end, i);
    hide Tainted;
    assert start < i ==> Formatting(s[i - 1]);
  }

  lemma {:induction false} RunPieces(s: string, start: nat, end: nat, to: nat)
    requires start < to <= end <= |s| && Run(s, start, end)
    ensures Pieces(s, start, to) == if RunHasControl(s, start, end) then " " else s[start..to]
  {
    hide Run, Piece, RunHasControl;
    RunPiece(s, start, end, to - 1);
    if to == start + 1 {
      assert Pieces(s, start, start) == "";
      assert s[start..to] == [s[start]];
    } else {
      RunPieces(s, start, end, to - 1);
      assert s[start..to] == s[start..to - 1] + [s[to - 1]];
    }
  }

  /** The scan with nested loops leaves exactly the pieces, run by run. */
  method NormalizeFormattingWhitespace(token: string) returns (normalized: string)
    ensures normalized == Normalized(token)
  {
    normalized := "";
    var index := 0;
    while index < |token|
      invariant 0 <= index <= |token|
      invariant index == 0 || index == |token| || !Formatting(token[index - 1]) || !Formatting(token[index])
      invariant normalized == Pieces(token, 0, index)
    {
      if !Formatting(token[index]) {
        normalized := normalized + [token[index]];
        index := index + 1;
        continue;
      }
      var end := index + 1;
      while end < |token| && Formatting(token[end])
        invariant index < end <= |token|
        invariant forall k :: index <= k < end ==> Formatting(token[k])
      {
        end := end + 1;
      }
      var whitespace := token[index..end];
      RunPieces(token, index, end, end);
      PiecesSplit(token, 0, index, end);
      assert (exists c :: c in whitespace && FormattingControl(c))
        <==> RunHasControl(token, index, end) by {
        assert forall j :: index <= j < end ==> token[j] == whitespace[j - index];
      }
      normalized := normalized + (if exists c :: c in whitespace && FormattingControl(c) then " " else whitespace);
      index := end;
    }
  }

  ghost predicate ControlFree(s: string) { forall c :: c in s ==> !FormattingControl(c) }

  lemma {:induction false} PiecesAreControlFree(s: string, to: nat)
    requires to <= |s|
    ensures ControlFree(Pieces(s, 0, to)) && |Pieces(s, 0, to)| <= to
  {
    if to > 0 {
      PiecesAreControlFree(s, to - 1);
      if FormattingControl(s[to - 1]) {
        assert SameRun(s, to - 1, to - 1);
      }
    }
  }

  lemma {:induction false} ControlFreePieces(s: string, to: nat)
    requires ControlFree(s) && to <= |s|
    ensures Pieces(s, 0, to) == s[..to]
  {
    if to > 0 {
      ControlFreePieces(s, to - 1);
      assert s[..to] == s[..to - 1] + [s[to - 1]];
    }
  }

  function Visible(s: string): string {
    if s == "" then ""
        else (if Formatting(s[|s| - 1]) then Visible(s[..|s| - 1]) else Visible(s[..|s| - 1]) + [s[|s| - 1]])
  }

  lemma VisiblePush(s: string, piece: string)
    requires |piece| <= 1
    ensures Visible(s + piece) == Visible(s) + (if piece == "" || Formatting(piece[0]) then "" else piece)
  {
    if piece != "" {
      assert (s + piece)[..|s + piece| - 1] == s;
    } else {
      assert s + piece == s;
    }
  }

  lemma {:induction false} PiecesKeepVisible(s: string, to: nat)
    requires to <= |s|
    ensures Visible(Pieces(s, 0, to)) == Visible(s[..to])
  {
    if to > 0 {
      PiecesKeepVisible(s, to - 1);
      VisiblePush(Pieces(s, 0, to - 1), Piece(s, to - 1));
      assert s[..to] == s[..to - 1] + [s[to - 1]];
      VisiblePush(s[..to - 1], [s[to - 1]]);
    }
  }

  /** Normalising never lengthens, leaves no control, keeps every other character and is idempotent. */
  lemma NormalizingIsStable(s: string)
    ensures |Normalized(s)| <= |s| && ControlFree(Normalized(s))
    ensures Visible(Normalized(s)) == Visible(s)
    ensures Normalized(Normalized(s)) == Normalized(s)
    ensures Normalized(s) == s <==> ControlFree(s)
  {
    PiecesAreControlFree(s, |s|);
    PiecesKeepVisible(s, |s|);
    assert s[..|s|] == s;
    var t := Normalized(s);
    ControlFreePieces(t, |t|);
    assert t[..|t|] == t;
    if ControlFree(s) {
      ControlFreePieces(s, |s|);
    }
  }

  // Safe text

  /** The Unicode classes the code asks for: category C, and the blanks `strip` removes. */
  datatype Unicode = Unicode(control: char -> bool, blank: char -> bool)

  datatype Code =
    | ObjectOrNull | TokenCountLimit | TokenControl | TokenRequiredText | TokenLength
    | PositionsArray | PositionsCountLimit | PositionInteger | PositionRange | PositionUnique
    | PositionsContiguous | ResultSize

  function StripLeft(u: Unicode, s: string): string {
    if s != "" && u.blank(s[0]) then StripLeft(u, s[1..]) else s
  }

  function StripRight(u: Unicode, s: string): string {
    if s != "" && u.blank(s[|s| - 1]) then StripRight(u, s[..|s| - 1]) else s
  }

  function Strip(u: Unicode, s: string): string { StripRight(u, StripLeft(u, s)) }

  predicate HasControl(u: Unicode, s: string) { exists c :: c in s && u.control(c) }

  function SafeText(u: Unicode, value: string, maximum: nat): Result<string, Code> {
    var result := Strip(u, value);
    if result == "" then Err(TokenRequiredText)
    else if |result| > maximum then Err(TokenLength)
    else if HasControl(u, result) then Err(TokenControl)
    else Ok(result)
  }

  ghost function SafeToken(u: Unicode, token: string): Result<string, Code> {
    var normalized := Normalized(token);
    if HasControl(u, normalized) then Err(TokenControl) else SafeText(u, normalized, 500)
  }

  /** A text that is already safe: short, not blank at either end, without any control. */
  ghost predicate Safe(u: Unicode, t: string) {
    && 0 < |t| <= 500 && !u.blank(t[0]) && !u.blank(t[|t| - 1])
    && !HasControl(u, t) && ControlFree(t)
  }

  lemma {:induction false} StripLeftFacts(u: Unicode, s: string)
    ensures |StripLeft(u, s)| <= |s| && StripLeft(u, s) == s[|s| - |StripLeft(u, s)|..]
    ensures StripLeft(u, s) != "" ==> !u.blank(StripLeft(u, s)[0])
  {
    if s != "" && u.blank(s[0]) {
      StripLeftFacts(u, s[1..]);
    }
  }

  lemma {:induction false} StripRightFacts(u: Unicode, s: string)
    ensures |StripRight(u, s)| <= |s| && StripRight(u, s) == s[..|StripRight(u, s)|]
    ensures StripRight(u, s) != "" ==> !u.blank(StripRight(u, s)[|StripRight(u, s)| - 1])
  {
    if s != "" && u.blank(s[|s| - 1]) {
      StripRightFacts(u, s[..|s| - 1]);
    }
  }

  /** What a token is kept as is safe, and the safe texts are exactly the ones kept unchanged. */
  lemma SafeTokensAreFixed(u: Unicode, token: string, t: string)
    ensures SafeToken(u, token) == Ok(t) ==> Safe(u, t)
    ensures SafeToken(u, t) == Ok(t) <==> Safe(u, t)
  {
    KeptIsSafe(u, token);
    KeptIsSafe(u, t);
    if Safe(u, t) {
      NormalizingIsStable(t);
    }
  }

  lemma KeptIsSafe(u: Unicode, token: string)
    ensures SafeToken(u, token).Ok? ==> Safe(u, SafeToken(u, token).value)
  {
    hide Normalized, StripLeft, StripRight;
    var normalized := Normalized(token);
    NormalizingIsStable(token);
    StripLeftFacts(u, normalized);
    StripRightFacts(u, StripLeft(u, normalized));
  }
}
