/** Counting the readers of one stream from the hook's reports. */
module ViewerCount {
  import opened Folds

  datatype ViewerEvent = Read | Unread

  /** The count is bumped by a read, and lowered by an unread unless it is zero. */
  function Bump(count: int, e: ViewerEvent): int {
    if e.Read? then count + 1 else if count > 0 then count - 1 else count
  }

  function Count(events: seq<ViewerEvent>): int {
    Fold(Bump, 0, events)
  }

  /** Reads minus unreads. */
  function Net(events: seq<ViewerEvent>): int {
    if events == [] then 0
    else Net(events[..|events| - 1]) + if events[|events| - 1].Read? then 1 else -1
  }

  lemma {:induction false} NetConcat(a: seq<ViewerEvent>, b: seq<ViewerEvent>)
    ensures Net(a + b) == Net(a) + Net(b)
  {
    if b == [] {
      assert a + b == a;
    } else {
      var n := |b| - 1;
      NetConcat(a, b[..n]);
      assert (a + b)[..|a| + n] == a + b[..n];
    }
  }

  /** The count is the greatest net number of reads over the suffixes of the history. */
  lemma {:induction false} CountIsMaxSuffix(events: seq<ViewerEvent>)
    ensures forall k | 0 <= k <= |events| :: Net(events[k..]) <= Count(events)
    ensures exists k | 0 <= k <= |events| :: Net(events[k..]) == Count(events)
  {
    if events == [] {
      assert events[0..] == [];
    } else {
      var n := |events| - 1;
      var front := events[..n];
      CountIsMaxSuffix(front);
      var best :| 0 <= best <= n && Net(front[best..]) == Count(front);
      forall k | 0 <= k <= n ensures Net(events[k..]) == Net(front[k..]) + (if events[n].Read? then 1 else -1) {
        assert events[k..][..n - k] == front[k..];
      }
      assert events[n + 1..] == [] && front[n..] == [];
      assert Net(events[best..]) == Count(events) || Net(events[n + 1..]) == Count(events);
    }
  }

  lemma CountNeverNegative(events: seq<ViewerEvent>)
    ensures Count(events) >= 0
  {
    CountIsMaxSuffix(events);
    assert events[|events|..] == [];
  }

  /** The count is reads minus unreads exactly when no unread came without its read:
      when no prefix of the history holds more unreads than reads. */
  lemma CountIsNetExactly(events: seq<ViewerEvent>)
    ensures Count(events) == Net(events) <==> forall k | 0 <= k <= |events| :: Net(events[..k]) >= 0
  {
    CountIsMaxSuffix(events);
    forall k | 0 <= k <= |events| ensures Net(events) == Net(events[..k]) + Net(events[k..]) {
      NetConcat(events[..k], events[k..]);
      assert events == events[..k] + events[k..];
    }
    assert events[0..] == events;
    assert Net(events[0..]) <= Count(events);
    if Count(events) == Net(events) {
      forall k | 0 <= k <= |events| ensures Net(events[..k]) >= 0 {
        assert Net(events[k..]) <= Count(events);
      }
    }
  }
}
