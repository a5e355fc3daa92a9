/** The byte budget over all connections: what the eviction loop keeps, and exactly
    which buffers it can take. */
module Budget {
  import opened Framing
  import opened ParserState
  import opened ParserSafety
  import opened Basics

  // ----- the eviction loop -----

  lemma OneKeyFewer(m: map<Key, bytes>, k: Key)
    requires k in m
    ensures |m - {k}| == |m| - 1
  {
    assert (m - {k}).Keys == m.Keys - {k};
    assert |m| == |m.Keys| && |m - {k}| == |(m - {k}).Keys|;
  }

  lemma MinusNoKeys(m: map<Key, bytes>)
    ensures m - {} == m
  {
  }

  /** What the eviction loop keeps: it took only while over budget, largest first. */
  ghost predicate OverBudget(full: map<Key, bytes>, key: Key, taken: set<Key>) {
    taken <= full.Keys && key !in taken
    && EachWasNeeded(full, taken)
    && forall t, k :: t in taken && k in full && k !in taken && k != key ==> |full[k]| <= |full[t]|
  }

  lemma NothingTaken(full: map<Key, bytes>, key: Key)
    ensures OverBudget(full, key, {})
  {
  }

  lemma TakeOneMore(full: map<Key, bytes>, key: Key, taken: set<Key>, fattest: Key)
    requires OverBudget(full, key, taken) && Total(full - taken) > MAX_TOTAL_SCAN_BYTES
    requires fattest in full - taken && fattest != key
    requires forall k :: k in (full - taken).Keys - {key} ==> |(full - taken)[k]| <= |(full - taken)[fattest]|
    ensures OverBudget(full, key, taken + {fattest})
    ensures full - taken - {fattest} == full - (taken + {fattest})
    ensures |full - taken - {fattest}| < |full - taken|
  {
    hide Total, EachWasNeeded;
    OneKeyFewer(full - taken, fattest);
    MinusOneKey(full, taken, fattest);
    FattestWasNeeded(full, taken, fattest);
    forall k | k in full && k !in taken && k != key
      ensures |full[k]| <= |full[fattest]|
    {
      assert k in (full - taken).Keys - {key};
    }
  }

  /** The last one taken is the smallest, so putting back any other is no better. */
  lemma FattestWasNeeded(full: map<Key, bytes>, taken: set<Key>, fattest: Key)
    requires Total(full - taken) > MAX_TOTAL_SCAN_BYTES && fattest in full && fattest !in taken && taken <= full.Keys
    requires forall t :: t in taken ==> |full[fattest]| <= |full[t]|
    ensures EachWasNeeded(full, taken + {fattest})
  {
    hide Total;
    var all := taken + {fattest};
    TotalRemove(full - taken, fattest);
    MinusOneKey(full, taken, fattest);
    forall t | t in all
      ensures Total(full - (all - {t})) > MAX_TOTAL_SCAN_BYTES
    {
      var back := full - (all - {t});
      assert back - {t} == full - all && back[t] == full[t];
      TotalRemove(back, t);
    }
  }

  lemma BudgetKept(full: map<Key, bytes>, key: Key, taken: set<Key>)
    requires key in full && |full[key]| > MAX_SCAN_BUFFER && OverBudget(full, key, taken)
    requires Total(full - taken) <= MAX_TOTAL_SCAN_BYTES || (full - taken).Keys - {key} == {}
    ensures TakenOk(full, key, taken)
  {
    if (full - taken).Keys - {key} == {} {
      assert key in (full - taken).Keys;
      assert (full - taken).Keys == {key};
    }
  }

  lemma MinusOneKey(m: map<Key, bytes>, taken: set<Key>, k: Key)
    ensures m - taken - {k} == m - (taken + {k})
  {
  }

  // ----- which buffers can go -----

  /** The buffers that go before `other`: the strictly larger ones, `key` aside. */
  function Larger(full: map<Key, bytes>, key: Key, other: Key): set<Key>
    requires other in full
  {
    set k | k in full && k != key && |full[k]| > |full[other]|
  }

  ghost predicate CanBeTaken(full: map<Key, bytes>, key: Key, other: Key) {
    exists taken :: TakenOk(full, key, taken) && other in taken
  }

  /** A buffer, the active connection's other direction among them, can be taken exactly
      when the active buffer is large and the total is still over budget without all
      strictly larger ones. */
  lemma TakenExactly(full: map<Key, bytes>, key: Key, other: Key)
    requires key in full && other in full && other != key
    ensures CanBeTaken(full, key, other)
       <==> |full[key]| > MAX_SCAN_BUFFER && Total(full - Larger(full, key, other)) > MAX_TOTAL_SCAN_BYTES
  {
    hide Total, Larger, TakenOk;
    if CanBeTaken(full, key, other) {
      var taken :| TakenOk(full, key, taken) && other in taken;
      TakenMeansOver(full, key, other, taken);
    }
    if |full[key]| > MAX_SCAN_BUFFER && Total(full - Larger(full, key, other)) > MAX_TOTAL_SCAN_BYTES {
      LargerWereNeeded(full, key, other);
      var most := Larger(full, key, other);
      TakeOneMore(full, key, most, other);
      var taken := TakeOn(full, key, most + {other});
      assert TakenOk(full, key, taken) && other in taken;
    }
  }

  lemma TakenMeansOver(full: map<Key, bytes>, key: Key, other: Key, taken: set<Key>)
    requires other in full && other != key && TakenOk(full, key, taken) && other in taken
    ensures |full[key]| > MAX_SCAN_BUFFER && Total(full - Larger(full, key, other)) > MAX_TOTAL_SCAN_BYTES
  {
    hide Total;
    var most := Larger(full, key, other);
    assert most <= taken - {other};
    TotalOfSubmap(full - (taken - {other}), full - most);
  }

  lemma LargerWereNeeded(full: map<Key, bytes>, key: Key, other: Key)
    requires other in full && other != key && Total(full - Larger(full, key, other)) > MAX_TOTAL_SCAN_BYTES
    ensures OverBudget(full, key, Larger(full, key, other))
    ensures other in full - Larger(full, key, other)
    ensures
      var left := full - Larger(full, key, other);
      forall k :: k in left.Keys - {key} ==> |left[k]| <= |left[other]|
  {
    hide Total;
    var most := Larger(full, key, other);
    forall t | t in most
      ensures Total(full - (most - {t})) > MAX_TOTAL_SCAN_BYTES
    {
      TotalOfSubmap(full - most, full - (most - {t}));
    }
  }

  /** From any point of the loop on it comes to an end. */
  lemma TakeOn(full: map<Key, bytes>, key: Key, taken: set<Key>) returns (all: set<Key>)
    requires key in full && |full[key]| > MAX_SCAN_BUFFER && OverBudget(full, key, taken)
    ensures taken <= all && TakenOk(full, key, all)
    decreases |full - taken|
  {
    hide Total, OverBudget, TakenOk;
    if Total(full - taken) <= MAX_TOTAL_SCAN_BYTES || (full - taken).Keys - {key} == {} {
      BudgetKept(full, key, taken);
      all := taken;
    } else {
      var fattest := FattestOf(full - taken, (full - taken).Keys - {key});
      TakeOneMore(full, key, taken, fattest);
      all := TakeOn(full, key, taken + {fattest});
    }
  }

  lemma {:induction false} FattestOf(m: map<Key, bytes>, keys: set<Key>) returns (fattest: Key)
    requires keys != {} && keys <= m.Keys
    ensures fattest in keys && forall k :: k in keys ==> |m[k]| <= |m[fattest]|
    decreases keys
  {
    fattest :| fattest in keys;
    assert forall k :: k in keys ==> k == fattest || k in keys - {fattest};
    if keys - {fattest} != {} {
      var other := FattestOf(m, keys - {fattest});
      if |m[other]| > |m[fattest]| { fattest := other; }
    }
  }
}
