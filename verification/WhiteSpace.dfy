/** White-space folding before feature extraction (preprocess in animationquality/predict.go). */
module WhiteSpace {
  import opened Common

  /** Python's str.isspace. */
  predicate PythonSpace(r: char) {
    || '\U{9}' <= r <= '\U{D}' || '\U{1C}' <= r <= '\U{20}' || r == '\U{85}' || r == '\U{A0}' || r == '\U{1680}'
    || '\U{2000}' <= r <= '\U{200A}' || r == '\U{2028}' || r == '\U{2029}' || r == '\U{202F}' || r == '\U{205F}'
    || r == '\U{3000}'
  }

  /** How far the white space reaches from a position. */
  function RunEnd(s: string, i: nat): (end: nat)
    requires i <= |s|
    ensures i <= end <= |s| && (end < |s| ==> !PythonSpace(s[end]))
    ensures forall k | i <= k < end :: PythonSpace(s[k])
    decreases |s| - i
  {
    if i < |s| && PythonSpace(s[i]) then RunEnd(s, i + 1) else i
  }

  /** From a position on: every run of two or more white-space characters becomes one space. */
  function FoldedFrom(s: string, i: nat): string
    requires i <= |s|
    decreases |s| - i
  {
    if i == |s| then ""
    else if RunEnd(s, i) >= i + 2 then " " + FoldedFrom(s, RunEnd(s, i))
    else [s[i]] + FoldedFrom(s, i + 1)
  }

  function Folded(s: string): string {
    FoldedFrom(s, 0)
  }

  /** The end of the group at a position: a white-space run, or a single other character. */
  method GroupEnd(input: string, i: nat) returns (end: nat)
    requires i < |input|
    ensures end == if PythonSpace(input[i]) then RunEnd(input, i) else i + 1
    ensures i < end <= |input|
  {
    hide PythonSpace;
    end := i + 1;
    if PythonSpace(input[i]) {
      while end < |input| && PythonSpace(input[end])
        invariant i + 1 <= end <= |input| && RunEnd(input, i) == RunEnd(input, end)
      {
        end := end + 1;
      }
    }
  }

  method Preprocess(input: string) returns (out: string)
    ensures out == Folded(input)
  {
    hide PythonSpace, RunEnd, FoldedFrom, Folded;
    FoldedEnds(input);
    out := "";
    var i := 0;
    while i < |input|
      invariant i <= |input| && out + FoldedFrom(input, i) == Folded(input)
    {
      var end := GroupEnd(input, i);
      FoldedStep(input, i, end);
      var piece := if end - i >= 2 then " " else [input[i]];
      Regrouped(out, piece, FoldedFrom(input, end));
      out := out + piece;
      i := end;
    }
  }

  lemma FoldedEnds(s: string)
    ensures Folded(s) == FoldedFrom(s, 0) && FoldedFrom(s, |s|) == ""
  {
  }

  lemma Regrouped(a: string, b: string, c: string)
    ensures a + (b + c) == a + b + c
  {
  }

  lemma FoldedStep(s: string, i: nat, end: nat)
    requires i < |s| && end == if PythonSpace(s[i]) then RunEnd(s, i) else i + 1
    ensures i < end <= |s| && FoldedFrom(s, i) == (if end - i >= 2 then " " else [s[i]]) + FoldedFrom(s, end)
  {
    hide PythonSpace;
  }

  // ---- What folding keeps and what it removes ----

  /** No two white-space characters stand next to each other. */
  ghost predicate SinglySpaced(s: string) {
    forall i | 0 <= i < |s| - 1 :: !(PythonSpace(s[i]) && PythonSpace(s[i + 1]))
  }

  /** The text without its white space. */
  function Visible(s: string): string {
    if s == "" then "" else if PythonSpace(s[0]) then Visible(s[1..]) else [s[0]] + Visible(s[1..])
  }

  lemma {:induction false} FoldedIsSinglySpaced(s: string, i: nat)
    requires i <= |s|
    ensures SinglySpaced(FoldedFrom(s, i))
    ensures FoldedFrom(s, i) != "" ==> i < |s| && (PythonSpace(FoldedFrom(s, i)[0]) <==> PythonSpace(s[i]))
    decreases |s| - i
  {
    if i < |s| {
      var next := if RunEnd(s, i) >= i + 2 then RunEnd(s, i) else i + 1;
      FoldedIsSinglySpaced(s, next);
    }
  }

  lemma {:induction false} RunIsInvisible(s: string, i: nat, end: nat)
    requires i <= end <= |s| && forall k | i <= k < end :: PythonSpace(s[k])
    ensures Visible(s[i..]) == Visible(s[end..])
    decreases end - i
  {
    if i < end {
      assert s[i..][1..] == s[i + 1..];
      RunIsInvisible(s, i + 1, end);
    }
  }

  lemma {:induction false} FoldedKeepsVisible(s: string, i: nat)
    requires i <= |s|
    ensures Visible(FoldedFrom(s, i)) == Visible(s[i..])
    decreases |s| - i
  {
    if i < |s| {
      var rest := if RunEnd(s, i) >= i + 2 then RunEnd(s, i) else i + 1;
      FoldedKeepsVisible(s, rest);
      assert FoldedFrom(s, i)[1..] == FoldedFrom(s, rest);
      assert s[i..][1..] == s[i + 1..];
      if RunEnd(s, i) >= i + 2 { RunIsInvisible(s, i, rest); }
    }
  }

  lemma {:induction false} SinglySpacedIsFixed(s: string, i: nat)
    requires i <= |s| && SinglySpaced(s)
    ensures FoldedFrom(s, i) == s[i..]
    decreases |s| - i
  {
    if i < |s| {
      SinglySpacedIsFixed(s, i + 1);
    }
  }

  /** Folding twice is folding once; the result is singly spaced and shows the same text. */
  lemma FoldingIsIdempotent(s: string)
    ensures Folded(Folded(s)) == Folded(s) && SinglySpaced(Folded(s)) && Visible(Folded(s)) == Visible(s)
  {
    FoldedIsSinglySpaced(s, 0);
    SinglySpacedIsFixed(Folded(s), 0);
    FoldedKeepsVisible(s, 0);
    assert s[0..] == s && Folded(s)[0..] == Folded(s);
  }

  /** A text is left alone exactly if it is singly spaced. */
  lemma UnchangedExactlyIfSinglySpaced(s: string)
    ensures Folded(s) == s <==> SinglySpaced(s)
  {
    FoldedIsSinglySpaced(s, 0);
    if SinglySpaced(s) { SinglySpacedIsFixed(s, 0); }
  }
}
