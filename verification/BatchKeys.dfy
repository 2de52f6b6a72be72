/** The process keys of goroutine/goroutine.go: how a batch key is printed and read back. */
module BatchKeys {
  import opened Text

  const SEP: string := "#batch_"

  datatype BatchKey = BatchKey(step: string, index: nat)

  /** A step key is clean when the separator does not occur in it. */
  ghost predicate Clean(step: string) { forall i :: !OccursAt(step, SEP, i) }

  /** The key printed for chunk number n (counted from one). */
  function ProcessKey(step: string, n: nat): string { step + SEP + Decimal(n) }

  /** The key printed for a batch that is not split. */
  function AllKey(step: string): string { step + SEP + "all" }

  function ParseBatchKey(key: string): (r: Option<BatchKey>)
    ensures r.Some? ==> 0 < r.value.index <= MAX_INT && OccursAt(key, SEP, |r.value.step|)
  {
    match Index(key, SEP)
    case None => None
    case Some(pos) =>
      match Atoi(key[pos + |SEP|..])
      case None => None
      case Some(n) => if n <= 0 then None else Some(BatchKey(key[..pos], n))
  }

  /** '#' only opens the separator, so an occurrence cannot run into the printed one. */
  lemma NoOverlap(step: string, tail: string, pos: nat)
    requires pos < |step| && OccursAt(step + SEP + tail, SEP, pos)
    ensures OccursAt(step, SEP, pos)
  {
    var key := step + SEP + tail;
    assert forall k :: 0 < k < |SEP| ==> SEP[k] != '#';
    assert forall k :: 0 <= k < |SEP| ==> key[pos + k] == key[pos..pos + |SEP|][k] == SEP[k];
    assert forall i {:trigger key[i]} :: pos < i < pos + |SEP| ==> key[i] == SEP[i - pos] != '#' by {
      forall i | pos < i < pos + |SEP| ensures key[i] == SEP[i - pos] != '#' {
        assert key[pos + (i - pos)] == SEP[i - pos];
      }
    }
    assert key[|step|] == SEP[0] == '#';
    assert step[pos..pos + |SEP|] == key[pos..pos + |SEP|];
  }

  /** In a key built from a clean step the first separator is the printed one. */
  lemma FirstSeparator(step: string, tail: string)
    ensures var pos := Index(step + SEP + tail, SEP);
            pos.Some? && pos.value <= |step| && (Clean(step) <==> pos.value == |step|)
  {
    var key := step + SEP + tail;
    assert key[|step|..|step| + |SEP|] == SEP;
    assert OccursAt(key, SEP, |step|);
    var pos := Index(key, SEP).value;
    if pos < |step| {
      NoOverlap(step, tail, pos);
    } else {
      forall i ensures !OccursAt(step, SEP, i) {
        if 0 <= i <= |step| - |SEP| {
          assert !OccursAt(key, SEP, i);
          assert key[i..i + |SEP|] == step[i..i + |SEP|];
        }
      }
    }
  }

  /** A key is read as step and index exactly when it is a clean step, the separator and a text that
      Atoi takes for that positive index. */
  lemma ParsesExactly(key: string, bk: BatchKey)
    ensures ParseBatchKey(key) == Some(bk)
            <==> bk.index > 0 && Clean(bk.step) && bk.step + SEP <= key
                 && Atoi(key[|bk.step + SEP|..]) == Some(bk.index)
  {
    hide Atoi;
    if bk.step + SEP <= key {
      FirstSeparator(bk.step, key[|bk.step + SEP|..]);
      assert bk.step + SEP + key[|bk.step + SEP|..] == key;
    }
    var pos := Index(key, SEP);
    if pos.Some? {
      assert key == key[..pos.value] + SEP + key[pos.value + |SEP|..];
      FirstSeparator(key[..pos.value], key[pos.value + |SEP|..]);
    }
  }

  /** Reading back a printed key returns the step and the index exactly when the step is clean. */
  lemma ParsePrintedKey(step: string, n: nat)
    requires 1 <= n <= MAX_INT
    ensures ParseBatchKey(ProcessKey(step, n)) == Some(BatchKey(step, n)) <==> Clean(step)
  {
    var key := ProcessKey(step, n);
    FirstSeparator(step, Decimal(n));
    AtoiDecimal(n);
    if Clean(step) {
      assert key[|step| + |SEP|..] == Decimal(n);
      assert key[..|step|] == step;
    } else {
      var pos := Index(key, SEP).value;
      assert |key[..pos]| < |step|;
    }
  }

  lemma CleanKeyIsNoBatchKey(step: string)
    requires Clean(step)
    ensures ParseBatchKey(step) == None
  {}

  /** "#batch_all" never reads back as a batch key, whatever the step. */
  lemma AllKeyIsNoBatchKey(step: string)
    ensures ParseBatchKey(AllKey(step)) == None
  {
    var key := AllKey(step);
    FirstSeparator(step, "all");
    var pos := Index(key, SEP).value;
    var num := key[pos + |SEP|..];
    assert num[|num| - 1] == key[|key| - 1] == 'l';
    AtoiRejects(num, |num| - 1);
  }

  /** The prefix test of the collectors selects the keys of that step and of no other. */
  lemma PrefixSelectsOwnStep(collector: string, step: string, tail: string)
    requires Clean(collector) && Clean(step)
    ensures HasPrefix(step + SEP + tail, collector + SEP) <==> collector == step
  {
    var key := step + SEP + tail;
    FirstSeparator(step, tail);
    if collector == step {
      assert key[..|step + SEP|] == step + SEP;
    }
    if HasPrefix(key, collector + SEP) {
      var rest := key[|collector + SEP|..];
      assert key == collector + SEP + rest;
      FirstSeparator(collector, rest);
      assert key[..|collector|] == collector && key[..|step|] == step;
    }
  }

  lemma CleanKeyHasNoBatchPrefix(collector: string, key: string)
    requires Clean(key)
    ensures !HasPrefix(key, collector + SEP)
  {
    var n := |collector|;
    assert !OccursAt(key, SEP, n);
    if n + |SEP| <= |key| {
      assert (collector + SEP)[n..] == SEP;
      assert key[..n + |SEP|][n..] == key[n..n + |SEP|];
    }
  }

  /** Printed keys of clean steps are equal only when step and index are. */
  lemma PrintedKeysDistinct(s1: string, n1: nat, s2: string, n2: nat)
    requires Clean(s1) && Clean(s2) && 1 <= n1 <= MAX_INT && 1 <= n2 <= MAX_INT
    ensures ProcessKey(s1, n1) == ProcessKey(s2, n2) <==> s1 == s2 && n1 == n2
  {
    ParsePrintedKey(s1, n1);
    ParsePrintedKey(s2, n2);
  }
}
