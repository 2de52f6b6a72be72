/** Choosing the response of an error by the greatest registered code not above its own
    (ConvertError in response/echo_error.go). */
module FloorLookup {
  import opened Text

  /** An error and what it wraps.  Only Coded carries a code. */
  datatype GoError = Coded(code: int, message: string) | Wrapping(text: string, inner: GoError) | Plain(text: string)

  datatype Answer<!R> = FromHandler(response: R) | Unchanged(err: GoError)

  /** errors.As for the coded error: the outermost one in the chain. */
  function AsCoded(err: GoError): (r: Option<GoError>)
    ensures r.Some? ==> r.value.Coded?
  {
    match err
    case Coded(_, _) => Some(err)
    case Wrapping(_, inner) => AsCoded(inner)
    case Plain(_) => None
  }

  /** An error behind the texts that wrap it. */
  function Behind(texts: seq<string>, err: GoError): GoError {
    if texts == [] then err else Wrapping(texts[0], Behind(texts[1..], err))
  }

  /** Through whatever wraps it, the coded error is found with its code and message; without one, none. */
  lemma {:induction false} OutermostIsFound(texts: seq<string>, code: int, message: string, text: string)
    ensures AsCoded(Behind(texts, Coded(code, message))) == Some(Coded(code, message))
    ensures AsCoded(Behind(texts, Plain(text))) == None
  {
    if texts != [] {
      OutermostIsFound(texts[1..], code, message, text);
    }
  }

  /** Every error is of one of the two kinds. */
  lemma {:induction false} ErrorIsBehind(err: GoError) returns (texts: seq<string>, inner: GoError)
    ensures err == Behind(texts, inner) && !inner.Wrapping?
  {
    texts, inner := [], err;
    if err.Wrapping? {
      texts, inner := ErrorIsBehind(err.inner);
      assert ([err.text] + texts)[1..] == texts;
      texts := [err.text] + texts;
    }
  }

  /** The greatest of some keys that is not above a code. */
  ghost predicate Floor(keys: set<int>, code: int, key: int) {
    key in keys && key <= code && forall k :: k in keys && k <= code ==> k <= key
  }

  lemma {:induction false} FloorExists(keys: set<int>, code: int, k: int) returns (key: int)
    requires k in keys && k <= code
    ensures Floor(keys, code, key)
    decreases code - k
  {
    key := k;
    if next :| next in keys && k < next <= code {
      key := FloorExists(keys, code, next);
    }
  }

  /** A floor exists exactly when some key is not above the code, and there is one at most. */
  lemma FloorDetermined(keys: set<int>, code: int)
    ensures (exists k :: k in keys && k <= code) <==> (exists key :: Floor(keys, code, key))
    ensures forall a, b :: Floor(keys, code, a) && Floor(keys, code, b) ==> a == b
  {
    if k :| k in keys && k <= code {
      var key := FloorExists(keys, code, k);
    }
  }

  lemma FloorIsKey(keys: set<int>, code: int, key: int)
    requires Floor(keys, code, key)
    ensures key in keys && key <= code
  {}

  function KeysOf(s: seq<int>): set<int> { set k | k in s }

  ghost predicate Descending(s: seq<int>) { forall i, j :: 0 <= i < j < |s| ==> s[i] >= s[j] }

  /** The first i elements are the greatest, in descending order. */
  ghost predicate Selected(s: seq<int>, i: nat)
    requires i <= |s|
  {
    forall p, q :: 0 <= p < i && p < q < |s| ==> s[p] >= s[q]
  }

  function Swapped(s: seq<int>, i: nat, j: nat): seq<int>
    requires i < |s| && j < |s|
  {
    s[i := s[j]][j := s[i]]
  }

  lemma SelectNext(s: seq<int>, i: nat, top: nat)
    requires i <= top < |s| && Selected(s, i)
    requires forall q :: i <= q < |s| ==> s[top] >= s[q]
    ensures multiset(Swapped(s, i, top)) == multiset(s)
    ensures Selected(Swapped(s, i, top), i + 1)
  {}

  method IndexOfGreatest(a: array<int>, i: nat) returns (top: nat)
    requires i < a.Length
    ensures i <= top < a.Length && forall q :: i <= q < a.Length ==> a[..][top] >= a[..][q]
  {
    top := i;
    for j := i + 1 to a.Length
      invariant i <= top < a.Length
      invariant forall q :: i <= q < j ==> a[top] >= a[q]
    {
      if a[j] > a[top] {
        top := j;
      }
    }
  }

  /** sort.Slice with "greater" as the order, in place. */
  method SortDescending(a: array<int>)
    modifies a
    ensures Descending(a[..]) && multiset(a[..]) == multiset(old(a[..]))
  {
    var i := 0;
    while i < a.Length
      invariant i <= a.Length && Selected(a[..], i)
      invariant multiset(a[..]) == multiset(old(a[..]))
    {
      hide Selected;
      ghost var s := a[..];
      var top := IndexOfGreatest(a, i);
      assert a[..] == s;
      SelectNext(s, i, top);
      a[i], a[top] := a[top], a[i];
      assert a[..] == Swapped(s, i, top);
      i := i + 1;
    }
  }

  method CollectKeys(order: seq<int>) returns (a: array<int>)
    ensures fresh(a) && a[..] == order
  {
    a := new int[|order|];
    for i := 0 to |order|
      invariant a[..i] == order[..i]
    {
      a[i] := order[i];
    }
  }

  /** The first key of a descending array that is not above the code. */
  method ScanKeys(a: array<int>, code: int) returns (key: Option<int>)
    requires Descending(a[..])
    ensures key.None? ==> forall k :: k in KeysOf(a[..]) ==> k > code
    ensures key.Some? ==> Floor(KeysOf(a[..]), code, key.value)
  {
    for n := 0 to a.Length
      invariant forall m :: 0 <= m < n ==> a[..][m] > code
    {
      assert a[n] == a[..][n];
      if code >= a[n] {
        return Some(a[n]);
      }
    }
    return None;
  }

  lemma SameKeys(s: seq<int>, order: seq<int>, keys: set<int>)
    requires multiset(s) == multiset(order) && IsOrder(order, keys)
    ensures KeysOf(s) == keys
  {
    assert forall k :: k in s <==> k in multiset(order);
  }

  /** For every order in which the registry may be enumerated: the handler of the greatest key
      not above the code answers, and without such a key the error comes back unchanged. */
  method ConvertError<R>(err: GoError, handlers: map<int, GoError -> R>, order: seq<int>) returns (answer: Answer<R>)
    requires IsOrder(order, handlers.Keys)
    ensures AsCoded(err).None? ==> answer == Unchanged(err)
    ensures AsCoded(err).Some? && (forall k :: k in handlers ==> k > AsCoded(err).value.code) ==>
              answer == Unchanged(err)
    ensures forall key :: AsCoded(err).Some? && Floor(handlers.Keys, AsCoded(err).value.code, key)
              ==> answer == FromHandler(handlers[key](AsCoded(err).value))
  {
    hide Floor, Descending;
    var arrKey := CollectKeys(order);
    SortDescending(arrKey);
    SameKeys(arrKey[..], order, handlers.Keys);
    var val := AsCoded(err);
    if val.None? {
      return Unchanged(err);
    }
    FloorDetermined(handlers.Keys, val.value.code);
    var key := ScanKeys(arrKey, val.value.code);
    if key.Some? {
      FloorIsKey(handlers.Keys, val.value.code, key.value);
      return FromHandler(handlers[key.value](val.value));
    }
    return Unchanged(err);
  }
}
