/** A throttle's window (internal/control/store.go): slots taken in one transaction behind a
    lock, counted over a table that forgets what two windows have left behind. */
module Throttle {
  import opened Wrappers

  /** The rate of one control, fixed when it is saved; the table demands a positive window. */
  datatype Rate = Rate(maxOrders: int, window: int)

  /** The usage rows of one control: when each key took its slot. */
  type Usage = map<string, int>

  datatype Answer = Answer(allowed: bool, used: nat)

  /** The rows submitted strictly after an instant: no upper bound. */
  function Since(usage: Usage, since: int): set<string> {
    set k | k in usage && usage[k] > since
  }

  /** Rows two windows behind the clock of the call that grants. */
  function Pruned(usage: Usage, before: int): Usage {
    map k | k in usage && usage[k] >= before :: usage[k]
  }

  function Grants(r: Rate, usage: Usage, key: string, at: int): bool {
    key !in usage && |Since(usage, at - r.window)| < r.maxOrders
  }

  function Consumed(r: Rate, usage: Usage, key: string, at: int): (Usage, Answer) {
    var used := |Since(usage, at - r.window)|;
    if key in usage then (usage, Answer(true, used))
    else if used >= r.maxOrders then (usage, Answer(false, used))
    else (Pruned(usage[key := at], at - 2 * r.window), Answer(true, used + 1))
  }

  // ---------------------------------------------------------------------------
  // The full log
  // ---------------------------------------------------------------------------

  /** Every slot granted since the control was last forgotten, oldest grant first. */
  datatype Slot = Slot(key: string, at: int)

  datatype System = System(usage: Usage, log: seq<Slot>)

  const INITIAL := System(map[], [])

  datatype Label = Take(key: string, at: int) | Forget

  function Apply(r: Rate, s: System, l: Label): System {
    match l
    case Take(key, at) =>
      System(Consumed(r, s.usage, key, at).0, if Grants(r, s.usage, key, at) then s.log + [Slot(key, at)] else s.log)
    case Forget => INITIAL
  }

  function Run(r: Rate, labels: seq<Label>): System
    decreases |labels|
  {
    if labels == [] then INITIAL else Apply(r, Run(r, labels[..|labels| - 1]), labels[|labels| - 1])
  }

  /** Slots granted strictly after an instant, by the log. */
  function LogSince(log: seq<Slot>, since: int): nat {
    if log == [] then 0
    else LogSince(log[..|log| - 1], since) + if log[|log| - 1].at > since then 1 else 0
  }

  /** Slots granted in (lo, hi]. */
  function LogWithin(log: seq<Slot>, lo: int, hi: int): nat {
    if log == [] then 0
    else LogWithin(log[..|log| - 1], lo, hi) + if lo < log[|log| - 1].at <= hi then 1 else 0
  }

  /** The latest clock any grant used. */
  function Latest(log: seq<Slot>): Option<int> {
    if log == [] then None
    else
      var at := log[|log| - 1].at;
      match Latest(log[..|log| - 1])
      case None => Some(at)
      case Some(latest) => Some(if at > latest then at else latest)
  }

  // ---------------------------------------------------------------------------
  // The pruned table counts as the full log does
  // ---------------------------------------------------------------------------

  /** From just below the latest prune on, no row is missing. */
  predicate Complete(r: Rate, s: System, since: int) {
    Latest(s.log).Some? ==> since >= Latest(s.log).value - 2 * r.window - 1
  }

  ghost predicate Counts(r: Rate, s: System) {
    forall since :: Complete(r, s, since) ==> |Since(s.usage, since)| == LogSince(s.log, since)
  }

  lemma GrantCounts(r: Rate, usage: Usage, key: string, at: int, since: int)
    requires key !in usage && since >= at - 2 * r.window - 1 && r.window > 0
    ensures |Since(Pruned(usage[key := at], at - 2 * r.window), since)| == |Since(usage, since)| + if at > since then 1 else 0
  {
    var after := Pruned(usage[key := at], at - 2 * r.window);
    assert Since(after, since) == Since(usage, since) + if at > since then {key} else {};
  }

  lemma CountsApply(r: Rate, s: System, l: Label)
    requires r.window > 0 && Counts(r, s)
    ensures Counts(r, Apply(r, s, l))
  {
    var s' := Apply(r, s, l);
    if l.Forget? {
      forall since ensures |Since(s'.usage, since)| == LogSince(s'.log, since) {
        assert Since(s'.usage, since) == {};
      }
    } else if Grants(r, s.usage, l.key, l.at) {
      forall since | Complete(r, s', since) ensures |Since(s'.usage, since)| == LogSince(s'.log, since) {
        assert s'.log[..|s'.log| - 1] == s.log;
        assert Complete(r, s, since);
        GrantCounts(r, s.usage, l.key, l.at, since);
      }
    }
  }

  lemma {:induction false} CountsAlways(r: Rate, labels: seq<Label>)
    requires r.window > 0
    ensures Counts(r, Run(r, labels))
    decreases |labels|
  {
    if labels == [] {
      forall since ensures |Since(INITIAL.usage, since)| == LogSince(INITIAL.log, since) {
        assert Since(INITIAL.usage, since) == {};
      }
    } else {
      CountsAlways(r, labels[..|labels| - 1]);
      CountsApply(r, Run(r, labels[..|labels| - 1]), labels[|labels| - 1]);
    }
  }

  /** A clock not more than a window behind the latest one a grant used. */
  predicate Tolerable(r: Rate, log: seq<Slot>, at: int) {
    Latest(log).Some? ==> at >= Latest(log).value - r.window - 1
  }

  ghost predicate Agrees(r: Rate, s: System, at: int) {
    |Since(s.usage, at - r.window)| == LogSince(s.log, at - r.window)
  }

  /** Every history in which the latest grant's clock is `latest`. */
  ghost predicate AgreesAfterAll(r: Rate, latest: int, at: int) {
    forall labels :: Latest(Run(r, labels).log) == Some(latest) ==> Agrees(r, Run(r, labels), at)
  }

  /** How far behind a clock may be: the pruned table counts what the full log counts, after
      every history, exactly when the clock is no more than one window and one tick behind
      the latest clock of a grant. */
  lemma SkewToleranceExactly(r: Rate, latest: int, at: int)
    requires r.window > 0 && r.maxOrders > 0
    ensures AgreesAfterAll(r, latest, at) <==> at >= latest - r.window - 1
  {
    if at >= latest - r.window - 1 {
      forall labels | Latest(Run(r, labels).log) == Some(latest) ensures Agrees(r, Run(r, labels), at) {
        CountsAlways(r, labels);
        assert Complete(r, Run(r, labels), at - r.window);
      }
    } else {
      LostSlot(r, latest, at);
    }
  }

  lemma RunOne(r: Rate, labels: seq<Label>, l: Label)
    ensures Run(r, labels + [l]) == Apply(r, Run(r, labels), l)
  {
    assert (labels + [l])[..|labels|] == labels;
  }

  lemma RunTwo(r: Rate, a: Label, b: Label)
    ensures Run(r, [a, b]) == Apply(r, Apply(r, INITIAL, a), b)
  {
    RunOne(r, [], a);
    RunOne(r, [a], b);
    assert [] + [a] == [a] && [a] + [b] == [a, b];
  }

  lemma FirstTake(r: Rate, key: string, at: int)
    requires r.window > 0 && r.maxOrders > 0
    ensures Apply(r, INITIAL, Take(key, at)) == System(map[key := at], [Slot(key, at)])
  {
    assert Since(map[], at - r.window) == {};
  }

  lemma SecondTake(r: Rate, t: int, latest: int)
    requires r.window > 0 && r.maxOrders > 0 && t < latest - 2 * r.window
    ensures Apply(r, System(map["a" := t], [Slot("a", t)]), Take("b", latest)) == System(map["b" := latest], [Slot("a", t), Slot("b", latest)])
  {
    assert Since(map["a" := t], latest - r.window) == {};
    assert Pruned(map["a" := t]["b" := latest], latest - 2 * r.window) == map["b" := latest];
  }

  /** A slot still inside the late caller's window, pruned by a grant ahead of it. */
  lemma LostSlot(r: Rate, latest: int, at: int)
    requires r.window > 0 && r.maxOrders > 0 && at < latest - r.window - 1
    ensures var s := Run(r, [Take("a", at - r.window + 1), Take("b", latest)]);
      Latest(s.log) == Some(latest) && !Agrees(r, s, at)
  {
    TwoTaken(r, at - r.window + 1, latest);
    TwoDisagree(r, Run(r, [Take("a", at - r.window + 1), Take("b", latest)]), at - r.window + 1, latest, at);
  }

  lemma TwoDisagree(r: Rate, s: System, t: int, latest: int, at: int)
    requires s == System(map["b" := latest], [Slot("a", t), Slot("b", latest)])
    requires at - r.window < t < latest
    ensures Latest(s.log) == Some(latest) && !Agrees(r, s, at)
  {
    TwoLogged(t, latest, at - r.window);
    OneLeft(latest, at - r.window);
  }

  lemma OneLeft(latest: int, since: int)
    requires since < latest
    ensures |Since(map["b" := latest], since)| == 1
  {
    assert Since(map["b" := latest], since) == {"b"};
  }

  lemma TwoTaken(r: Rate, t: int, latest: int)
    requires r.window > 0 && r.maxOrders > 0 && t < latest - 2 * r.window
    ensures Run(r, [Take("a", t), Take("b", latest)]) == System(map["b" := latest], [Slot("a", t), Slot("b", latest)])
  {
    RunTwo(r, Take("a", t), Take("b", latest));
    FirstTake(r, "a", t);
    SecondTake(r, t, latest);
  }

  lemma TwoLogged(t: int, latest: int, since: int)
    requires since < t < latest
    ensures var log := [Slot("a", t), Slot("b", latest)]; Latest(log) == Some(latest) && LogSince(log, since) == 2
  {
    var log := [Slot("a", t), Slot("b", latest)];
    assert log[..1] == [Slot("a", t)] && [Slot("a", t)][..0] == [];
    assert LogSince([Slot("a", t)], since) == 1 && Latest([Slot("a", t)]) == Some(t);
  }

  // ---------------------------------------------------------------------------
  // The rate
  // ---------------------------------------------------------------------------

  /** Every grant's clock was tolerable when it was made. */
  predicate ClocksTolerable(r: Rate, labels: seq<Label>)
    decreases |labels|
  {
    labels == [] ||
    (ClocksTolerable(r, labels[..|labels| - 1]) &&
     Granted(r, Run(r, labels[..|labels| - 1]), labels[|labels| - 1]))
  }

  /** A grant, if this is one, is on a tolerable clock. */
  predicate Granted(r: Rate, s: System, l: Label) {
    l.Take? && Grants(r, s.usage, l.key, l.at) ==> Tolerable(r, s.log, l.at)
  }

  lemma {:induction false} WithinAtMostSince(log: seq<Slot>, lo: int, hi: int, since: int)
    requires since <= lo
    ensures LogWithin(log, lo, hi) <= LogSince(log, since)
    decreases |log|
  {
    if log != [] { WithinAtMostSince(log[..|log| - 1], lo, hi, since); }
  }

  lemma WithinMore(log: seq<Slot>, slot: Slot, lo: int, hi: int)
    ensures LogWithin(log + [slot], lo, hi) == LogWithin(log, lo, hi) + if lo < slot.at <= hi then 1 else 0
  {
    assert (log + [slot])[..|log|] == log;
  }

  /** One grant on a tolerable clock. */
  lemma GrantHolds(r: Rate, s: System, key: string, at: int, w: int)
    requires r.window > 0 && Counts(r, s) && Tolerable(r, s.log, at) && Grants(r, s.usage, key, at)
    requires LogWithin(s.log, w - r.window, w) <= r.maxOrders
    ensures LogWithin(s.log + [Slot(key, at)], w - r.window, w) <= r.maxOrders
  {
    WithinMore(s.log, Slot(key, at), w - r.window, w);
    if w - r.window < at <= w {
      assert Complete(r, s, at - r.window);
      WithinAtMostSince(s.log, w - r.window, w, at - r.window);
    }
  }

  /** No window of the throttle's length ever holds more grants than the rate, wherever it
      lies and whatever order the clocks ran in. */
  lemma {:induction false} RateHolds(r: Rate, labels: seq<Label>, w: int)
    requires r.window > 0 && r.maxOrders >= 0 && ClocksTolerable(r, labels)
    ensures LogWithin(Run(r, labels).log, w - r.window, w) <= r.maxOrders
    decreases |labels|
  {
    if labels != [] {
      var before, l := labels[..|labels| - 1], labels[|labels| - 1];
      RateHolds(r, before, w);
      CountsAlways(r, before);
      if l.Take? && Grants(r, Run(r, before).usage, l.key, l.at) {
        GrantHolds(r, Run(r, before), l.key, l.at, w);
      }
    }
  }

  /** On a tolerable clock the count a caller is given is the number of slots the full log
      holds in its window, its own new one included. */
  lemma UsedIsHeld(r: Rate, labels: seq<Label>, key: string, at: int)
    requires r.window > 0 && Tolerable(r, Run(r, labels).log, at)
    ensures var s := Run(r, labels); var s' := Apply(r, s, Take(key, at));
      Consumed(r, s.usage, key, at).1.used == LogSince(s'.log, at - r.window)
  {
    CountsAlways(r, labels);
    var s := Run(r, labels);
    assert Complete(r, s, at - r.window);
    if Grants(r, s.usage, key, at) {
      assert (s.log + [Slot(key, at)])[..|s.log|] == s.log;
    }
  }

  /** A replay holds the slot it has and takes no other; a refusal takes none. */
  lemma ReplayTakesNothing(r: Rate, s: System, key: string, at: int)
    ensures Apply(r, s, Take(key, at)).log == s.log <==> key in s.usage || |Since(s.usage, at - r.window)| >= r.maxOrders
    ensures Consumed(r, s.usage, key, at).1.allowed <==> key in s.usage || Apply(r, s, Take(key, at)).log != s.log
  {
  }

  // ---------------------------------------------------------------------------
  // When the rate fails
  // ---------------------------------------------------------------------------

  lemma TakeLast(r: Rate, labels: seq<Label>, key: string, at: int)
    requires ClocksTolerable(r, labels) && Granted(r, Run(r, labels), Take(key, at))
    ensures ClocksTolerable(r, labels + [Take(key, at)])
  {
    assert (labels + [Take(key, at)])[..|labels|] == labels;
  }

  lemma {:induction false} LatestIsLogged(log: seq<Slot>, since: int)
    requires Latest(log).Some? && Latest(log).value > since
    ensures LogSince(log, since) >= 1
    decreases |log|
  {
    var before := log[..|log| - 1];
    if log[|log| - 1].at <= since { LatestIsLogged(before, since); }
  }

  /** With one slot the latest grant is always in the way of an earlier clock. */
  lemma OneSlotTolerable(r: Rate, labels: seq<Label>, key: string, at: int)
    requires r.window > 0 && r.maxOrders == 1 && Grants(r, Run(r, labels).usage, key, at)
    ensures Tolerable(r, Run(r, labels).log, at)
  {
    var s := Run(r, labels);
    CountsAlways(r, labels);
    if !Tolerable(r, s.log, at) {
      var since := Latest(s.log).value - r.window - 1;
      assert Complete(r, s, since);
      LatestIsLogged(s.log, since);
      assert Since(s.usage, since) <= Since(s.usage, at - r.window);
      Fewer(Since(s.usage, since), Since(s.usage, at - r.window));
    }
  }

  lemma {:induction false} Fewer(a: set<string>, b: set<string>)
    requires a <= b
    ensures |a| <= |b|
  {
    assert b == a + (b - a);
  }

  /** Some history on tolerable clocks, its latest grant at `latest`, after which one more
      call at `at` puts more grants than the rate into some window. */
  ghost predicate CanOverrun(r: Rate, latest: int, at: int) {
    exists labels, key, w :: Overruns(r, labels, key, w, latest, at)
  }

  ghost predicate Overruns(r: Rate, labels: seq<Label>, key: string, w: int, latest: int, at: int) {
    && ClocksTolerable(r, labels)
    && Latest(Run(r, labels).log) == Some(latest)
    && LogWithin(Run(r, labels + [Take(key, at)]).log, w - r.window, w) > r.maxOrders
  }

  /** One more grant on a tolerable clock does not. */
  lemma NextHolds(r: Rate, labels: seq<Label>, key: string, w: int, at: int)
    requires r.window > 0 && r.maxOrders > 0 && ClocksTolerable(r, labels)
    requires Tolerable(r, Run(r, labels).log, at) || r.maxOrders == 1
    ensures LogWithin(Run(r, labels + [Take(key, at)]).log, w - r.window, w) <= r.maxOrders
  {
    if Grants(r, Run(r, labels).usage, key, at) && r.maxOrders == 1 { OneSlotTolerable(r, labels, key, at); }
    TakeLast(r, labels, key, at);
    RateHolds(r, labels + [Take(key, at)], w);
  }

  lemma NoOverrun(r: Rate, labels: seq<Label>, key: string, w: int, latest: int, at: int)
    requires r.window > 0 && r.maxOrders > 0 && (at >= latest - r.window - 1 || r.maxOrders == 1)
    ensures !Overruns(r, labels, key, w, latest, at)
  {
    if ClocksTolerable(r, labels) && Latest(Run(r, labels).log) == Some(latest) { NextHolds(r, labels, key, w, at); }
  }

  /** Exactly when it can: at a rate of two or more, from a clock more than a window and a
      tick behind. */
  lemma RateFailsExactly(r: Rate, latest: int, at: int)
    requires r.window > 0 && r.maxOrders > 0
    ensures CanOverrun(r, latest, at) <==> r.maxOrders >= 2 && at < latest - r.window - 1
  {
    if r.maxOrders >= 2 && at < latest - r.window - 1 {
      BurstThenAhead(r, latest, at);
    } else {
      forall labels, key, w ensures !Overruns(r, labels, key, w, latest, at) {
        NoOverrun(r, labels, key, w, latest, at);
      }
    }
  }

  /** A rate of one never fails, whatever the clocks. */
  lemma {:induction false} OneSlotHolds(r: Rate, labels: seq<Label>, w: int)
    requires r.window > 0 && r.maxOrders == 1
    ensures ClocksTolerable(r, labels) && LogWithin(Run(r, labels).log, w - r.window, w) <= 1
    decreases |labels|
  {
    if labels != [] {
      var before, l := labels[..|labels| - 1], labels[|labels| - 1];
      OneSlotHolds(r, before, w);
      if l.Take? && Grants(r, Run(r, before).usage, l.key, l.at) { OneSlotTolerable(r, before, l.key, l.at); }
    }
    RateHolds(r, labels, w);
  }

  function Key(n: nat): string {
    seq(n, _ => 'a')
  }

  /** As many calls at one instant. */
  ghost function Burst(t: int, n: nat): seq<Label> {
    if n == 0 then [] else Burst(t, n - 1) + [Take(Key(n - 1), t)]
  }

  /** What a burst within the rate leaves. */
  ghost predicate Full(r: Rate, s: System, t: int, n: nat) {
    && (forall k :: k in s.usage ==> |k| < n && s.usage[k] == t)
    && Latest(s.log) == (if n == 0 then None else Some(t))
    && (forall since :: since < t ==> LogSince(s.log, since) == n)
    && (forall lo, hi :: lo < t <= hi ==> LogWithin(s.log, lo, hi) == n)
  }

  lemma {:induction false} BurstFills(r: Rate, t: int, n: nat)
    requires r.window > 0 && n <= r.maxOrders
    ensures Full(r, Run(r, Burst(t, n)), t, n) && ClocksTolerable(r, Burst(t, n))
    decreases n
  {
    if n > 0 {
      var before := Burst(t, n - 1);
      BurstFills(r, t, n - 1);
      CountsAlways(r, before);
      FullGrants(r, Run(r, before), t, n);
      RunOne(r, before, Take(Key(n - 1), t));
      TakeLast(r, before, Key(n - 1), t);
      FullGrows(r, Run(r, before), t, n);
    }
  }

  lemma FullGrants(r: Rate, s: System, t: int, n: nat)
    requires r.window > 0 && 0 < n <= r.maxOrders && Full(r, s, t, n - 1) && Counts(r, s)
    ensures Grants(r, s.usage, Key(n - 1), t) && Tolerable(r, s.log, t)
  {
    assert Complete(r, s, t - r.window);
    assert LogSince(s.log, t - r.window) == n - 1;
  }

  lemma FullGrows(r: Rate, s: System, t: int, n: nat)
    requires r.window > 0 && n > 0 && Full(r, s, t, n - 1) && Grants(r, s.usage, Key(n - 1), t)
    ensures Full(r, Apply(r, s, Take(Key(n - 1), t)), t, n)
  {
    var slot := Slot(Key(n - 1), t);
    var s' := Apply(r, s, Take(Key(n - 1), t));
    assert s'.log == s.log + [slot] && s'.log[..|s.log|] == s.log;
    assert |Key(n - 1)| == n - 1;
    assert Latest(s'.log) == Some(t);
    forall since | since < t ensures LogSince(s'.log, since) == n {
      assert LogSince(s.log, since) == n - 1;
    }
    forall k | k in s'.usage ensures |k| < n && s'.usage[k] == t {
      if k != Key(n - 1) { assert k in s.usage; }
    }
    forall lo, hi | lo < t <= hi ensures LogWithin(s'.log, lo, hi) == n {
      WithinMore(s.log, slot, lo, hi);
    }
  }

  /** A grant far enough ahead prunes the whole burst. */
  lemma AheadEmpties(r: Rate, s: System, t: int, latest: int)
    requires r.window > 0 && r.maxOrders > 0 && Full(r, s, t, r.maxOrders) && t < latest - 2 * r.window
    ensures var key := Key(r.maxOrders);
      && Apply(r, s, Take(key, latest)) == System(map[key := latest], s.log + [Slot(key, latest)])
      && Tolerable(r, s.log, latest)
      && Latest(s.log + [Slot(key, latest)]) == Some(latest)
  {
    var key := Key(r.maxOrders);
    assert key !in s.usage;
    assert Since(s.usage, latest - r.window) == {};
    assert Pruned(s.usage[key := latest], latest - 2 * r.window) == map[key := latest];
    assert (s.log + [Slot(key, latest)])[..|s.log|] == s.log;
  }

  lemma LateIsGranted(r: Rate, log: seq<Slot>, latest: int, at: int)
    requires r.window > 0 && r.maxOrders >= 2 && at < latest
    ensures var key, late := Key(r.maxOrders), Key(r.maxOrders + 1);
      Apply(r, System(map[key := latest], log), Take(late, at)).log == log + [Slot(late, at)]
  {
    var key, late := Key(r.maxOrders), Key(r.maxOrders + 1);
    assert |key| != |late|;
    assert Since(map[key := latest], at - r.window) == {key};
  }

  /** The history: a full window, and a grant ahead of it that prunes it. */
  lemma Ahead(r: Rate, latest: int, at: int) returns (labels: seq<Label>, log: seq<Slot>)
    requires r.window > 0 && r.maxOrders >= 2 && at < latest - r.window - 1
    ensures ClocksTolerable(r, labels)
    ensures Run(r, labels) == System(map[Key(r.maxOrders) := latest], log) && Latest(log) == Some(latest)
    ensures LogWithin(log, at - r.window, at) == r.maxOrders
  {
    var t, key := at - r.window + 1, Key(r.maxOrders);
    var burst := Burst(t, r.maxOrders);
    var s := Run(r, burst);
    BurstFills(r, t, r.maxOrders);
    AheadEmpties(r, s, t, latest);
    RunOne(r, burst, Take(key, latest));
    TakeLast(r, burst, key, latest);
    labels, log := burst + [Take(key, latest)], s.log + [Slot(key, latest)];
    WithinMore(s.log, Slot(key, latest), at - r.window, at);
  }

  /** And a late call that is given one slot more in that window. */
  lemma BurstThenAhead(r: Rate, latest: int, at: int)
    requires r.window > 0 && r.maxOrders >= 2 && at < latest - r.window - 1
    ensures CanOverrun(r, latest, at)
  {
    var late := Key(r.maxOrders + 1);
    var labels, log := Ahead(r, latest, at);
    LateIsGranted(r, log, latest, at);
    RunOne(r, labels, Take(late, at));
    WithinMore(log, Slot(late, at), at - r.window, at);
    assert Overruns(r, labels, late, at, latest, at);
  }

  // ---------------------------------------------------------------------------
  // The store
  // ---------------------------------------------------------------------------

  /** One tenant's usage table, by control. A method's `up` is whether the database answers. */
  class UsageStore {
    var rows: map<string, Usage>

    constructor ()
      ensures rows == map[]
    {
      rows := map[];
    }

    function Of(controlID: string): Usage
      reads this
    {
      if controlID in rows then rows[controlID] else map[]
    }

    /** Takes one slot in one control's window, or reports that there is none. */
    method Consume(controlID: string, r: Rate, key: string, at: int, up: bool) returns (answer: Option<Answer>)
      modifies this
      ensures !up ==> answer.None? && rows == old(rows)
      ensures up ==> Of(controlID) == Consumed(r, old(Of(controlID)), key, at).0
      ensures up ==> answer == Some(Consumed(r, old(Of(controlID)), key, at).1)
      ensures forall other :: other != controlID ==> Of(other) == old(Of(other))
    {
      if !up { return None; }
      var usage := Of(controlID);
      var replay := key in usage;
      var used := |Since(usage, at - r.window)|;
      if replay { return Some(Answer(true, used)); }
      if used >= r.maxOrders { return Some(Answer(false, used)); }
      usage := usage[key := at];
      usage := Pruned(usage, at - 2 * r.window);
      rows := rows[controlID := usage];
      return Some(Answer(true, used + 1));
    }

    method Forget(controlID: string, up: bool)
      modifies this
      ensures Of(controlID) == if up then map[] else old(Of(controlID))
      ensures forall other :: other != controlID ==> Of(other) == old(Of(other))
    {
      if up {
        rows := rows - {controlID};
      }
    }
  }
}
