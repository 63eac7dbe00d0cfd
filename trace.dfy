/** Settle-once listeners over an ordered event trace. A listener that settles
    a promise is described by a decision function (what one event would settle
    the promise with, if anything); since resolve and reject are no-ops once
    the promise has settled, the promise holds the decision of the first event
    that decides anything. Candidate gathering (recvICECandidate) is the one
    listener that also accumulates. */
module Trace {
  import opened Wire

  /** The decision of the first deciding event of `evs`, if any. */
  function First<E, T>(decide: E -> Option<T>, evs: seq<E>): Option<T>
  {
    if evs == [] then None else Then(decide(evs[0]), First(decide, evs[1..]))
  }

  /** Delivering one more event to a pending promise lets that event decide;
      a settled promise ignores it. */
  lemma {:induction false} FirstAppend<E, T>(decide: E -> Option<T>, s: seq<E>, e: E)
    ensures First(decide, s + [e]) == Then(First(decide, s), decide(e))
  {
    if s != [] {
      assert (s + [e])[1..] == s[1..] + [e];
      FirstAppend(decide, s[1..], e);
    }
  }

  /** Settle-once: whatever follows a settled promise does not change it. */
  lemma {:induction false} FirstSettled<E, T>(decide: E -> Option<T>, s: seq<E>, t: seq<E>)
    requires First(decide, s).Some?
    ensures First(decide, s + t) == First(decide, s)
  {
    assert s != [];
    if decide(s[0]).None? {
      assert (s + t)[1..] == s[1..] + t;
      FirstSettled(decide, s[1..], t);
    }
  }

  /** The promise settles with `v` exactly when some event decides `v` and no
      earlier event decides anything. */
  lemma {:induction false} FirstIff<E, T>(decide: E -> Option<T>, evs: seq<E>, v: T)
    ensures First(decide, evs) == Some(v) <==>
      exists i :: 0 <= i < |evs| && decide(evs[i]) == Some(v) &&
        forall j :: 0 <= j < i ==> decide(evs[j]).None?
  {
    if evs != [] {
      FirstIff(decide, evs[1..], v);
      if First(decide, evs) == Some(v) {
        if decide(evs[0]).None? {
          var i :| 0 <= i < |evs[1..]| && decide(evs[1..][i]) == Some(v) &&
            forall j :: 0 <= j < i ==> decide(evs[1..][j]).None?;
          assert decide(evs[i + 1]) == Some(v);
          forall j | 0 <= j < i + 1 ensures decide(evs[j]).None? {
            if j > 0 { assert evs[j] == evs[1..][j - 1]; }
          }
        } else {
          assert decide(evs[0]) == Some(v);
        }
      }
      if exists i :: 0 <= i < |evs| && decide(evs[i]) == Some(v) &&
           forall j :: 0 <= j < i ==> decide(evs[j]).None? {
        var i :| 0 <= i < |evs| && decide(evs[i]) == Some(v) &&
          forall j :: 0 <= j < i ==> decide(evs[j]).None?;
        if i > 0 {
          assert decide(evs[0]).None?;
          assert decide(evs[1..][i - 1]) == Some(v);
          forall j | 0 <= j < i - 1 ensures decide(evs[1..][j]).None? {
            assert evs[1..][j] == evs[j + 1];
          }
        }
      }
    }
  }

  /** The promise stays pending exactly when no event decides anything. */
  lemma {:induction false} FirstPending<E, T>(decide: E -> Option<T>, evs: seq<E>)
    ensures First(decide, evs).None? <==> forall i :: 0 <= i < |evs| ==> decide(evs[i]).None?
  {
    if evs != [] {
      FirstPending(decide, evs[1..]);
      assert forall i :: 1 <= i < |evs| ==> evs[i] == evs[1..][i - 1];
    }
  }

  /** The values of the present entries, in order. */
  function Present<T>(cs: seq<Option<T>>): (r: seq<T>)
    ensures |r| <= |cs|
  {
    if cs == [] then []
    else
      var init := Present(cs[..|cs| - 1]);
      match cs[|cs| - 1]
      case None => init
      case Some(c) => init + [c]
  }

  /** recvICECandidate: the candidates seen before the first null sentinel, once
      the sentinel has arrived; pending until then. */
  function GatheredOf<T>(cs: seq<Option<T>>): (r: Option<seq<T>>)
    ensures r.Some? ==> |r.value| < |cs|
  {
    if cs == [] then None
    else if cs[0].None? then Some([])
    else
      match GatheredOf(cs[1..])
      case None => None
      case Some(rest) => Some([cs[0].value] + rest)
  }

  lemma {:induction false} PresentAllSome<T>(cs: seq<Option<T>>)
    requires forall j :: 0 <= j < |cs| ==> cs[j].Some?
    ensures |Present(cs)| == |cs|
    ensures forall j :: 0 <= j < |cs| ==> Present(cs)[j] == cs[j].value
  {
    if cs != [] {
      PresentAllSome(cs[..|cs| - 1]);
    }
  }

  lemma {:induction false} PresentCons<T>(c: T, cs: seq<Option<T>>)
    ensures Present([Some(c)] + cs) == [c] + Present(cs)
    decreases |cs|
  {
    if cs == [] {
      assert ([Some(c)] + cs)[..0] == [];
    } else {
      assert ([Some(c)] + cs)[..|cs|] == [Some(c)] + cs[..|cs| - 1];
      PresentCons(c, cs[..|cs| - 1]);
    }
  }

  /** Gathering completes only if a sentinel has arrived, and always once one
      has. */
  lemma {:induction false} GatheredIff<T>(cs: seq<Option<T>>)
    ensures GatheredOf(cs).Some? <==> exists k :: 0 <= k < |cs| && cs[k].None?
  {
    if cs != [] && cs[0].Some? {
      GatheredIff(cs[1..]);
      if exists k :: 0 <= k < |cs| && cs[k].None? {
        var k :| 0 <= k < |cs| && cs[k].None?;
        assert cs[1..][k - 1] == cs[k];
      }
      if exists k :: 0 <= k < |cs[1..]| && cs[1..][k].None? {
        var k :| 0 <= k < |cs[1..]| && cs[1..][k].None?;
        assert cs[k + 1] == cs[1..][k];
      }
    }
  }

  /** A completed gathering holds exactly the candidates before the first
      sentinel, in arrival order. */
  lemma {:induction false} GatheredPrefix<T>(cs: seq<Option<T>>)
    requires GatheredOf(cs).Some?
    ensures exists k ::
              0 <= k < |cs| && cs[k].None? && (forall j :: 0 <= j < k ==> cs[j].Some?) &&
              GatheredOf(cs).value == Present(cs[..k])
  {
    if cs[0].None? {
      assert cs[..0] == [];
    } else {
      GatheredPrefix(cs[1..]);
      var k :| 0 <= k < |cs[1..]| && cs[1..][k].None? && (forall j :: 0 <= j < k ==> cs[1..][j].Some?) &&
        GatheredOf(cs[1..]).value == Present(cs[1..][..k]);
      assert cs[..k + 1] == [Some(cs[0].value)] + cs[1..][..k];
      PresentCons(cs[0].value, cs[1..][..k]);
      assert cs[k + 1] == cs[1..][k];
      forall j | 0 <= j < k + 1
        ensures cs[j].Some?
      {
        if 0 < j {
          assert cs[j] == cs[1..][j - 1];
        }
      }
      assert GatheredOf(cs).value == Present(cs[..k + 1]);
    }
  }

  /** Delivering one more event to the gatherer: a pending gathering completes
      on a sentinel with every candidate seen so far; a completed one ignores
      everything. */
  lemma {:induction false} GatheredAppend<T>(cs: seq<Option<T>>, c: Option<T>)
    ensures GatheredOf(cs + [c]) ==
      if GatheredOf(cs).Some? then GatheredOf(cs)
      else if c.None? then Some(Present(cs))
      else None
  {
    if cs == [] {
      assert [c][1..] == [];
    } else {
      assert (cs + [c])[1..] == cs[1..] + [c];
      GatheredAppend(cs[1..], c);
      if cs[0].Some? && GatheredOf(cs[1..]).None? {
        assert cs == [Some(cs[0].value)] + cs[1..];
        PresentCons(cs[0].value, cs[1..]);
      }
    }
  }
}
