/**
 Whole runs of nclttr's main loop: `Step` folded over a sequence of
 occurrences, stopping at the first pass that breaks out of the loop, and the
 properties that hold of every run.
 */
module Runs {
  import opened Options
  import opened Loop

  /** What a run leaves behind: the last state, the visibility calls and cookie calls in order. */
  datatype Trace = Trace(final: State, calls: seq<Action>, data: seq<DataCall>, running: bool)

  /** Each occurrence can arise in the state the loop is in when it arrives. */
  predicate Admissible(cfg: Config, s: State, occs: seq<Occurrence>)
    decreases |occs|
  {
    |occs| == 0 ||
    (Possible(s, occs[0]) &&
     var o := Step(cfg, s, occs[0]);
     o.running ==> Admissible(cfg, o.next, occs[1..]))
  }

  /** The visibility call of one pass as a (possibly empty) sequence. */
  function Emitted(a: Action): (r: seq<Action>)
    ensures NoAction !in r
    ensures a != NoAction ==> r == [a]
  {
    if a == NoAction then [] else [a]
  }

  /** The loop run from `s` over `occs`; a pass that breaks ends the run. */
  function Run(cfg: Config, s: State, occs: seq<Occurrence>): (t: Trace)
    requires Admissible(cfg, s, occs)
    ensures NoAction !in t.calls
    ensures |t.calls| <= |occs|
    ensures |occs| == 0 ==> t == Trace(s, [], [], true)
    decreases |occs|
  {
    if |occs| == 0 then Trace(s, [], [], true)
    else
      var o := Step(cfg, s, occs[0]);
      if !o.running then Trace(o.next, Emitted(o.action), o.data, false)
      else
        var rest := Run(cfg, o.next, occs[1..]);
        Trace(rest.final, Emitted(o.action) + rest.calls, o.data + rest.data, rest.running)
  }

  /** The only call the machine can make from a given visibility. */
  function Expected(hidden: bool): Action {
    if hidden then Show else Hide
  }

  /** Calls alternate, the first being the one `Expected` from the starting visibility. */
  predicate Alternating(calls: seq<Action>, hidden: bool) {
    forall i :: 0 <= i < |calls| ==> calls[i] == Expected(hidden != (i % 2 == 1))
  }

  /** A call allowed from `hidden`, followed by calls alternating from the other side, alternates. */
  lemma AlternatingCons(a: Action, calls: seq<Action>, hidden: bool)
    requires a == Expected(hidden) && Alternating(calls, !hidden)
    ensures Alternating([a] + calls, hidden)
  {
    var all := [a] + calls;
    forall i | 0 <= i < |all| ensures all[i] == Expected(hidden != (i % 2 == 1)) {
      if i > 0 {
        assert all[i] == calls[i - 1];
      }
    }
  }

  /** Every run alternates its calls, and its final visibility flips once per call. */
  lemma {:induction false} RunAlternates(cfg: Config, s: State, occs: seq<Occurrence>)
    requires Admissible(cfg, s, occs)
    ensures Alternating(Run(cfg, s, occs).calls, s.hidden)
    ensures Run(cfg, s, occs).final.hidden == (s.hidden != (|Run(cfg, s, occs).calls| % 2 == 1))
    decreases |occs|
  {
    if |occs| > 0 {
      var o := Step(cfg, s, occs[0]);
      if o.running {
        var rest := Run(cfg, o.next, occs[1..]);
        RunAlternates(cfg, o.next, occs[1..]);
        if o.action != NoAction {
          AlternatingCons(o.action, rest.calls, s.hidden);
        }
      }
    }
  }

  /** From the initial state the calls are Hide, Show, Hide, ...; hidden exactly after an odd count. */
  lemma {:induction false} StrictAlternationFromStart(cfg: Config, occs: seq<Occurrence>)
    requires Admissible(cfg, Initial, occs)
    ensures var calls := Run(cfg, Initial, occs).calls;
      && (|calls| > 0 ==> calls[0] == Hide)
      && (forall i :: 0 <= i < |calls| - 1 ==> calls[i] != calls[i + 1])
      && (Run(cfg, Initial, occs).final.hidden <==> |calls| % 2 == 1)
  {
    RunAlternates(cfg, Initial, occs);
    var calls := Run(cfg, Initial, occs).calls;
    forall i | 0 <= i < |calls| - 1 ensures calls[i] != calls[i + 1] {
      assert calls[i] == Expected(i % 2 == 1);
      assert calls[i + 1] == Expected((i + 1) % 2 == 1);
    }
  }

  /** Cookie calls come in GetData, FreeData pairs: every fetch is freed, once, before the next. */
  predicate Paired(data: seq<DataCall>) {
    |data| % 2 == 0 && forall i :: 0 <= i < |data| ==> data[i] == (if i % 2 == 0 then GetData else FreeData)
  }

  lemma {:induction false} RunFreesEveryFetch(cfg: Config, s: State, occs: seq<Occurrence>)
    requires Admissible(cfg, s, occs)
    ensures Paired(Run(cfg, s, occs).data)
    decreases |occs|
  {
    if |occs| > 0 {
      var o := Step(cfg, s, occs[0]);
      if o.running {
        var rest := Run(cfg, o.next, occs[1..]);
        RunFreesEveryFetch(cfg, o.next, occs[1..]);
        var data := Run(cfg, s, occs).data;
        assert data == o.data + rest.data;
        forall i | 0 <= i < |data|
          ensures data[i] == (if i % 2 == 0 then GetData else FreeData)
        {
          if i >= |o.data| {
            assert data[i] == rest.data[i - |o.data|];
          }
        }
      }
    }
  }

  /** Once the loop has broken out, later occurrences change nothing. */
  lemma {:induction false} StopEndsRun(cfg: Config, s: State, occs: seq<Occurrence>, more: seq<Occurrence>)
    requires Admissible(cfg, s, occs)
    requires !Run(cfg, s, occs).running
    ensures Admissible(cfg, s, occs + more)
    ensures Run(cfg, s, occs + more) == Run(cfg, s, occs)
    decreases |occs|
  {
    assert (occs + more)[0] == occs[0];
    var o := Step(cfg, s, occs[0]);
    if o.running {
      assert (occs + more)[1..] == occs[1..] + more;
      StopEndsRun(cfg, o.next, occs[1..], more);
    }
  }

  /** A run that keeps going can be continued by any sequence admissible where it ended. */
  lemma {:induction false} AdmissibleAppend(cfg: Config, s: State, a: seq<Occurrence>, b: seq<Occurrence>)
    requires Admissible(cfg, s, a) && Run(cfg, s, a).running
    requires Admissible(cfg, Run(cfg, s, a).final, b)
    ensures Admissible(cfg, s, a + b)
    decreases |a|
  {
    if |a| == 0 {
      assert a + b == b;
    } else {
      var ab := a + b;
      assert ab[0] == a[0];
      assert ab[1..] == a[1..] + b;
      var o := Step(cfg, s, a[0]);
      AdmissibleAppend(cfg, o.next, a[1..], b);
    }
  }

  /** Running `a` then `b` is the run of `a + b`, as long as `a` did not stop. */
  lemma {:induction false} RunAppend(cfg: Config, s: State, a: seq<Occurrence>, b: seq<Occurrence>)
    requires Admissible(cfg, s, a) && Run(cfg, s, a).running
    requires Admissible(cfg, Run(cfg, s, a).final, b)
    ensures Admissible(cfg, s, a + b)
    ensures var ta := Run(cfg, s, a); var tb := Run(cfg, ta.final, b);
      Run(cfg, s, a + b) == Trace(tb.final, ta.calls + tb.calls, ta.data + tb.data, tb.running)
    decreases |a|
  {
    AdmissibleAppend(cfg, s, a, b);
    if |a| == 0 {
      assert a + b == b;
    } else {
      var ab := a + b;
      assert ab[0] == a[0];
      assert ab[1..] == a[1..] + b;
      var o := Step(cfg, s, a[0]);
      var ra := Run(cfg, o.next, a[1..]);
      RunAppend(cfg, o.next, a[1..], b);
      var tb := Run(cfg, ra.final, b);
      Associative(Emitted(o.action), ra.calls, tb.calls);
      Associative(o.data, ra.data, tb.data);
    }
  }

  lemma Associative<T>(x: seq<T>, y: seq<T>, z: seq<T>)
    ensures x + (y + z) == (x + y) + z
  {
  }

  /** Any number of events while visible are drained with no call and no change. */
  lemma {:induction false} VisibleEventsDrained(cfg: Config, s: State, occs: seq<Occurrence>)
    requires !s.hidden
    requires forall i :: 0 <= i < |occs| ==> occs[i].Received?
    ensures Admissible(cfg, s, occs)
    ensures Run(cfg, s, occs) == Trace(s, [], [], true)
    decreases |occs|
  {
    if |occs| > 0 {
      assert occs[0].Received?;
      VisibleEventsDrained(cfg, s, occs[1..]);
    }
  }

  /**
   Two visible states that differ only in a stale accumulator behave the same,
   and agree exactly once a call has been made: an earlier hidden period never
   carries over into the next.
   */
  lemma {:induction false} HideForgetsHistory(cfg: Config, s: State, u: State, occs: seq<Occurrence>)
    requires !s.hidden && !u.hidden
    requires Admissible(cfg, s, occs)
    ensures Admissible(cfg, u, occs)
    ensures var ts := Run(cfg, s, occs); var tu := Run(cfg, u, occs);
      && ts.calls == tu.calls && ts.data == tu.data && ts.running == tu.running
      && ts.final.hidden == tu.final.hidden
      && (|ts.calls| > 0 ==> ts.final == tu.final)
    decreases |occs|
  {
    if |occs| > 0 {
      var os, ou := Step(cfg, s, occs[0]), Step(cfg, u, occs[0]);
      if occs[0].WaitExpired? {
        assert os == ou;
      } else if os.running {
        HideForgetsHistory(cfg, os.next, ou.next, occs[1..]);
      }
    }
  }

  /** From any state inside the radius, every run ends inside it. */
  lemma {:induction false} RunStaysInside(cfg: Config, s: State, occs: seq<Occurrence>)
    requires cfg.jitterSq >= 0
    requires Inside(cfg, s) && Admissible(cfg, s, occs)
    ensures Inside(cfg, Run(cfg, s, occs).final)
    decreases |occs|
  {
    if |occs| > 0 {
      StepKeepsInside(cfg, s, occs[0]);
      var o := Step(cfg, s, occs[0]);
      if o.running {
        RunStaysInside(cfg, o.next, occs[1..]);
      }
    }
  }

  /**
   Whenever a loop started visible has the pointer hidden with filtering on, the
   accumulated motion is strictly inside the radius. `Options.Configure` always
   yields a non-negative threshold.
   */
  lemma {:induction false} HiddenMeansInside(cfg: Config, occs: seq<Occurrence>)
    requires cfg.jitterSq >= 0
    requires Admissible(cfg, Initial, occs)
    ensures var f := Run(cfg, Initial, occs).final;
      f.hidden && Filtering(cfg) ==> Mag2(f.x, f.y) < cfg.jitterSq as real
  {
    RunStaysInside(cfg, Initial, occs);
  }

  /** Raw-motion events with the given deltas. */
  function Motions(ds: seq<(real, real)>): (r: seq<Occurrence>)
    ensures |r| == |ds|
    ensures forall i :: 0 <= i < |ds| ==> r[i] == Received(RawMotion(ds[i].0, ds[i].1))
  {
    if |ds| == 0 then [] else [Received(RawMotion(ds[0].0, ds[0].1))] + Motions(ds[1..])
  }

  function SumX(ds: seq<(real, real)>): real {
    if |ds| == 0 then 0.0 else ds[0].0 + SumX(ds[1..])
  }

  function SumY(ds: seq<(real, real)>): real {
    if |ds| == 0 then 0.0 else ds[0].1 + SumY(ds[1..])
  }

  /** The accumulator after the first `k` deltas, started at `s`, stays strictly inside the radius. */
  predicate BelowAfter(cfg: Config, s: State, ds: seq<(real, real)>, k: int)
    requires 0 <= k <= |ds|
  {
    Mag2(s.x + SumX(ds[..k]), s.y + SumY(ds[..k])) < cfg.jitterSq as real
  }

  /** Peeling the first delta off a prefix sum. */
  lemma {:induction false} PrefixSums(ds: seq<(real, real)>, k: int)
    requires 0 <= k < |ds|
    ensures SumX(ds[..k + 1]) == ds[0].0 + SumX(ds[1..][..k])
    ensures SumY(ds[..k + 1]) == ds[0].1 + SumY(ds[1..][..k])
  {
    assert ds[..k + 1][1..] == ds[1..][..k];
  }

  /**
   While hidden with filtering on, raw motion whose running sum stays strictly
   inside the radius never reveals, and the accumulator ends at the full sum.
   */
  lemma {:induction false} MotionBelowRadiusStaysHidden(cfg: Config, s: State, ds: seq<(real, real)>)
    requires s.hidden && Filtering(cfg)
    requires forall k :: 1 <= k <= |ds| ==> BelowAfter(cfg, s, ds, k)
    ensures Admissible(cfg, s, Motions(ds))
    ensures var t := Run(cfg, s, Motions(ds));
      t.final == State(true, s.x + SumX(ds), s.y + SumY(ds)) && t.calls == [] && t.running
    decreases |ds|
  {
    if |ds| > 0 {
      var occs := Motions(ds);
      var s' := State(true, s.x + ds[0].0, s.y + ds[0].1);
      PrefixSums(ds, 0);
      assert BelowAfter(cfg, s, ds, 1);
      assert Step(cfg, s, occs[0]).next == s';
      var rest := ds[1..];
      forall k | 1 <= k <= |rest| ensures BelowAfter(cfg, s', rest, k) {
        PrefixSums(ds, k);
        assert BelowAfter(cfg, s, ds, k + 1);
      }
      assert occs[1..] == Motions(rest);
      MotionBelowRadiusStaysHidden(cfg, s', rest);
    }
  }

  /** ... and the first delta that brings the sum to the radius or beyond reveals, exactly once. */
  lemma {:induction false} FirstCrossingReveals(cfg: Config, s: State, ds: seq<(real, real)>, d: (real, real))
    requires s.hidden && Filtering(cfg)
    requires forall k :: 1 <= k <= |ds| ==> BelowAfter(cfg, s, ds, k)
    requires Mag2(s.x + SumX(ds) + d.0, s.y + SumY(ds) + d.1) >= cfg.jitterSq as real
    ensures Admissible(cfg, s, Motions(ds + [d]))
    ensures var t := Run(cfg, s, Motions(ds + [d]));
      t.calls == [Show] && !t.final.hidden && t.running
  {
    MotionBelowRadiusStaysHidden(cfg, s, ds);
    var last := [Received(RawMotion(d.0, d.1))];
    assert Motions(ds + [d]) == Motions(ds) + last;
    RunAppend(cfg, s, Motions(ds), last);
  }

  /** Timeout 1, no jitter: idle hides, a button press reveals, idle hides again. */
  lemma CycleRepeats()
    ensures var cfg := Configure([Timeout(1)]);
      var occs := [WaitExpired, Received(RawOther), WaitExpired];
      && cfg == Config(0, 1)
      && Admissible(cfg, Initial, occs)
      && Run(cfg, Initial, occs).calls == [Hide, Show, Hide]
      && Run(cfg, Initial, occs).final.hidden
  {
    var opts := [Timeout(1)];
    assert NoJitter(opts);
    assert LastTimeoutAt(opts, 0);
    var cfg := Configure(opts);
    var occs := [WaitExpired, Received(RawOther), WaitExpired];
    assert occs[1..][1..] == [WaitExpired];
  }

  /** The motions of the `-j 10` scenario below: five steps right, of 3, 4, 5, 5 and 5. */
  const RightSteps: seq<(real, real)> := [(3.0, 0.0), (4.0, 0.0), (5.0, 0.0), (5.0, 0.0), (5.0, 0.0)]

  /** `-j 10` stores the threshold 100 and keeps the default timeout. */
  lemma {:induction false} JitterTenConfig()
    ensures Configure([Jitter(10)]) == Config(100, 5)
  {
    var opts := [Jitter(10)];
    assert NoTimeout(opts);
    assert LastJitterAt(opts, 0);
  }

  /** With threshold 100, hidden at the origin, the first two motions (x = 3, then 7) stay hidden. */
  lemma {:induction false} JitterTenFirstTwoStayHidden()
    ensures Admissible(Config(100, 5), State(true, 0.0, 0.0), Motions(RightSteps[..2]))
    ensures var t := Run(Config(100, 5), State(true, 0.0, 0.0), Motions(RightSteps[..2]));
      t.final == State(true, 7.0, 0.0) && t.calls == [] && t.running
  {
  }

  /** ... and the third (x = 12, 144 >= 100) reveals, once. */
  lemma {:induction false} JitterTenThirdReveals()
    ensures Admissible(Config(100, 5), State(true, 0.0, 0.0), Motions(RightSteps[..3]))
    ensures var t := Run(Config(100, 5), State(true, 0.0, 0.0), Motions(RightSteps[..3]));
      t.final == State(false, 12.0, 0.0) && t.calls == [Show] && t.running
  {
    var cfg, hidden := Config(100, 5), State(true, 0.0, 0.0);
    var two, third := Motions(RightSteps[..2]), [Received(RawMotion(5.0, 0.0))];
    JitterTenFirstTwoStayHidden();
    assert Motions(RightSteps[..3]) == two + third;
    RunAppend(cfg, hidden, two, third);
  }

  /**
   `-j 10`: after the pointer hides, motions (3,0), (4,0), (5,0), (5,0), (5,0)
   sum to x = 3, 7, 12, ...; the squares 9 and 49 stay below 100 and 144 does
   not, so the third motion reveals and the last two are drained while visible.
   */
  lemma {:induction false} JitterTenRevealsOnThird()
    ensures var cfg := Configure([Jitter(10)]);
      var idle := [WaitExpired];
      && Admissible(cfg, Initial, idle + Motions(RightSteps))
      && Run(cfg, Initial, idle + Motions(RightSteps)).calls == [Hide, Show]
      && Run(cfg, Initial, idle + Motions(RightSteps)).final == State(false, 12.0, 0.0)
  {
    JitterTenConfig();
    var cfg, hidden, visible := Config(100, 5), State(true, 0.0, 0.0), State(false, 12.0, 0.0);
    var idle := [WaitExpired];
    var three, tail := Motions(RightSteps[..3]), Motions(RightSteps[3..]);
    JitterTenThirdReveals();
    RunAppend(cfg, Initial, idle, three);
    VisibleEventsDrained(cfg, visible, tail);
    RunAppend(cfg, Initial, idle + three, tail);
    assert RightSteps == RightSteps[..3] + RightSteps[3..];
    assert Motions(RightSteps) == three + tail;
    assert idle + Motions(RightSteps) == (idle + three) + tail;
  }
}
