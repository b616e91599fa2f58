/** Small types and text helpers shared by every module. */
module Common {
  datatype Option<+T> = None | Some(value: T)

  datatype Result<+T, +E> = Ok(value: T) | Err(error: E)

  /** The white space that Go's strings.TrimSpace removes. */
  predicate IsSpace(c: char) {
    || '\U{9}' <= c <= '\U{D}' || c == ' ' || c == '\U{85}' || c == '\U{A0}' || c == '\U{1680}'
    || '\U{2000}' <= c <= '\U{200A}' || c == '\U{2028}' || c == '\U{2029}' || c == '\U{202F}'
    || c == '\U{205F}' || c == '\U{3000}'
  }

  function Trim(s: string): string {
    if s == [] then []
    else if IsSpace(s[0]) then Trim(s[1..])
    else if IsSpace(s[|s| - 1]) then Trim(s[..|s| - 1])
    else s
  }

  lemma TrimTwice(s: string)
    ensures Trim(Trim(s)) == Trim(s)
  {
  }

  predicate AllDigits(text: string) {
    text == "" || ('0' <= text[|text| - 1] <= '9' && AllDigits(text[..|text| - 1]))
  }

  function Number(text: string): nat
    requires AllDigits(text)
  {
    if text == "" then 0 else 10 * Number(text[..|text| - 1]) + (text[|text| - 1] as int - '0' as int)
  }

  /** stableID of the management client: an unsigned 64-bit number above zero, without surrounding space. */
  predicate StableId(text: string) {
    text != "" && AllDigits(text) && 0 < Number(text) < 0x1_0000_0000_0000_0000
  }

  ghost predicate AllDistinct<T>(items: seq<T>) {
    forall i, j | 0 <= i < j < |items| :: items[i] != items[j]
  }

  /** Distinct members of a list are no more than it has places; as many leave none of its members out. */
  lemma {:induction false} DistinctMembersFit<T>(members: seq<T>, list: seq<T>)
    requires AllDistinct(members) && forall i | 0 <= i < |members| :: members[i] in list
    ensures |members| <= |list|
    ensures |members| == |list| ==> forall m | m in list :: m in members
  {
    if members != [] {
      var n := |members| - 1;
      var k :| 0 <= k < |list| && list[k] == members[n];
      var rest := list[..k] + list[k + 1..];
      assert forall m | m in list :: m in rest || m == members[n];
      assert forall i | 0 <= i < n :: members[i] in list && members[i] != members[n];
      DistinctMembersFit(members[..n], rest);
    }
  }

  /** Rune-wise lower-casing; nothing but being a function is used of it. */
  type Fold = char -> char

  function Lower(fold: Fold, s: string): string {
    seq(|s|, i requires 0 <= i < |s| => fold(s[i]))
  }
}
