/** Go's string and integer helpers that several components share: `%d` printing,
    strconv.Atoi, strings.Index and strings.ReplaceAll.  */
module Text {

  datatype Option<+T> = None | Some(value: T)

  ghost predicate NoRepeats<T>(s: seq<T>) { forall i, j :: 0 <= i < j < |s| ==> s[i] != s[j] }

  /** An enumeration of a key set, as a Go `range` over the map may produce. */
  ghost predicate IsOrder<K(!new)>(order: seq<K>, keys: set<K>) {
    (forall k :: k in order <==> k in keys) && NoRepeats(order)
  }

  // ---------------------------------------------------------------- decimals

  const MAX_INT: int := 0x7FFF_FFFF_FFFF_FFFF

  predicate IsDigit(c: char) { '0' <= c <= '9' }

  predicate AllDigits(s: string) { forall i :: 0 <= i < |s| ==> IsDigit(s[i]) }

  function DigitChar(d: nat): (c: char)
    requires d < 10
    ensures IsDigit(c) && DigitValue(c) == d
  {
    ['0', '1', '2', '3', '4', '5', '6', '7', '8', '9'][d]
  }

  function DigitValue(c: char): (d: nat)
    requires IsDigit(c)
    ensures d < 10
  {
    c as int - '0' as int
  }

  /** The decimal text that `%d` prints for a non-negative number. */
  function Decimal(n: nat): (s: string)
    ensures s != [] && AllDigits(s)
  {
    if n < 10 then [DigitChar(n)] else Decimal(n / 10) + [DigitChar(n % 10)]
  }

  function DigitsValue(s: string): nat
    requires AllDigits(s)
  {
    if s == [] then 0 else 10 * DigitsValue(s[..|s| - 1]) + DigitValue(s[|s| - 1])
  }

  lemma {:induction false} DecimalValue(n: nat)
    ensures DigitsValue(Decimal(n)) == n
  {
    if n >= 10 {
      var front := Decimal(n / 10);
      DecimalValue(n / 10);
      assert Decimal(n)[..|Decimal(n)| - 1] == front;
    } else {
      assert DigitsValue([]) == 0;
      assert [DigitChar(n)][..0] == [];
    }
  }

  /** strconv.Atoi: an optional sign, at least one digit, and a value that fits an int64. */
  function Atoi(s: string): Option<int>
  {
    var signed := s != [] && (s[0] == '+' || s[0] == '-');
    var digits := if signed then s[1..] else s;
    if digits == [] || !AllDigits(digits) then None
    else
      var n: int := DigitsValue(digits);
      if signed && s[0] == '-' then (if n <= MAX_INT + 1 then Some(-n) else None)
      else if n <= MAX_INT then Some(n)
      else None
  }

  lemma AtoiDecimal(n: nat)
    ensures Atoi(Decimal(n)) == if n <= MAX_INT then Some(n) else None
  {
    DecimalValue(n);
    assert IsDigit(Decimal(n)[0]);
  }

  /** Numbers print as usual. */
  lemma DecimalSpells()
    ensures Decimal(0) == "0" && Decimal(10) == "10" && Decimal(907) == "907"
  {
    assert Decimal(9) == "9" && Decimal(1) == "1";
    assert Decimal(90) == Decimal(9) + "0";
    assert Decimal(907) == Decimal(90) + "7";
  }

  /** A sign is read; without digits there is no number. */
  lemma AtoiSigned(n: int)
    requires n >= 0
    ensures Atoi("+" + Decimal(n)) == Atoi(Decimal(n))
    ensures n <= MAX_INT + 1 ==> Atoi("-" + Decimal(n)) == Some(-n)
    ensures Atoi("") == None && Atoi("-") == None
  {
    hide Decimal;
    DecimalValue(n);
    assert ("+" + Decimal(n))[1..] == Decimal(n) && ("-" + Decimal(n))[1..] == Decimal(n);
    assert IsDigit(Decimal(n)[0]);
  }

  /** Only a number of digits after an optional sign is accepted. */
  lemma AtoiRejects(s: string, i: nat)
    requires 0 < i < |s| && !IsDigit(s[i])
    ensures Atoi(s) == None
  {
    assert s[1..][i - 1] == s[i];
  }

  // ------------------------------------------------------------ strings.Index

  predicate OccursAt(s: string, sub: string, i: int) {
    0 <= i <= |s| - |sub| && s[i..i + |sub|] == sub
  }

  /** strings.Index, started at position i: the first occurrence, if any. */
  function IndexFrom(s: string, sub: string, i: nat): (r: Option<nat>)
    requires i <= |s|
    ensures r.Some? ==> i <= r.value && OccursAt(s, sub, r.value)
                        && forall j :: i <= j < r.value ==> !OccursAt(s, sub, j)
    ensures r.None? ==> forall j :: i <= j ==> !OccursAt(s, sub, j)
    decreases |s| - i
  {
    if OccursAt(s, sub, i) then Some(i)
    else if i == |s| then None
    else IndexFrom(s, sub, i + 1)
  }

  function Index(s: string, sub: string): Option<nat> { IndexFrom(s, sub, 0) }

  predicate HasPrefix(s: string, prefix: string) {
    |prefix| <= |s| && s[..|prefix|] == prefix
  }

  // ------------------------------------------------------- strings.ReplaceAll

  /** Replace the non-overlapping occurrences of a non-empty text, from the left. */
  function ReplaceAll(s: string, old_: string, new_: string): string
    requires old_ != ""
    decreases |s|
  {
    if s == "" then ""
    else if HasPrefix(s, old_) then new_ + ReplaceAll(s[|old_|..], old_, new_)
    else [s[0]] + ReplaceAll(s[1..], old_, new_)
  }

  lemma ReplaceAllHit(s: string, old_: string, new_: string)
    requires old_ != "" && HasPrefix(s, old_)
    ensures ReplaceAll(s, old_, new_) == new_ + ReplaceAll(s[|old_|..], old_, new_)
  {}

  lemma ReplaceAllMiss(s: string, old_: string, new_: string)
    requires old_ != "" && s != "" && !HasPrefix(s, old_)
    ensures ReplaceAll(s, old_, new_) == [s[0]] + ReplaceAll(s[1..], old_, new_)
  {}

  lemma Assoc<T>(a: seq<T>, b: seq<T>, c: seq<T>)
    ensures (a + b) + c == a + (b + c)
  {}

  /** A text of three parts, seen from each cut. */
  lemma Cuts(head: string, mid: string, rest: string)
    ensures (head + mid + rest)[|head|..] == mid + rest
    ensures (mid + rest)[..|mid|] == mid && (mid + rest)[|mid|..] == rest
  {}

  /** Text without the first character of what is sought is copied. */
  lemma {:induction false} ReplaceAllSkips(text: string, rest: string, old_: string, new_: string)
    requires old_ != "" && old_[0] !in text
    ensures ReplaceAll(text + rest, old_, new_) == text + ReplaceAll(rest, old_, new_)
  {
    if text == "" {
      assert text + rest == rest;
    } else {
      var s := text + rest;
      assert s[0] == text[0] && s[1..] == text[1..] + rest;
      assert |old_| <= |s| ==> s[..|old_|][0] != old_[0];
      ReplaceAllSkips(text[1..], rest, old_, new_);
      ReplaceAllMiss(s, old_, new_);
      hide ReplaceAll;
      Assoc([text[0]], text[1..], ReplaceAll(rest, old_, new_));
      assert [text[0]] + text[1..] == text;
    }
  }
}
