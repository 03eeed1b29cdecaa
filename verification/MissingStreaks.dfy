/** internal/agent/process.go: declaring a container exited after consecutive missing observations. */
module MissingStreaks {
  import opened Names
  import opened Sums

  const CONFIRMATIONS := 3

  /** A tracked pod. The container id is empty for plain processes and WASM modules, which are never observed here. */
  datatype Tracked = Tracked(containerId: string, restarts: int)

  type Procs = map<string, Tracked>
  type Streaks = map<string, nat>

  function Streak(s: Streaks, key: string): nat
  {
    if key in s then s[key] else 0
  }

  /** A successful listing says something about a pod only if it is tracked and runs in a container. */
  predicate Observed(procs: Procs, key: string)
  {
    key in procs && procs[key].containerId != ""
  }

  predicate IsMissing(procs: Procs, running: set<string>, key: string)
  {
    Observed(procs, key) && procs[key].containerId !in running
  }

  /** The streak of one pod after one listing. */
  function NextStreak(procs: Procs, running: set<string>, streaks: Streaks, key: string): nat
  {
    if !Observed(procs, key) then Streak(streaks, key)
    else if !IsMissing(procs, running, key) then 0
    else if Streak(streaks, key) + 1 < CONFIRMATIONS then Streak(streaks, key) + 1
    else 0
  }

  predicate Expires(procs: Procs, running: set<string>, streaks: Streaks, key: string)
  {
    IsMissing(procs, running, key) && Streak(streaks, key) + 1 >= CONFIRMATIONS
  }

  /** One tick on the fields: a pod without a container is left alone, one that runs starts over, one that is missing counts
      up and exits the third time. */
  lemma TickMeans(procs: Procs, running: set<string>, streaks: Streaks, key: string)
    ensures key !in procs || procs[key].containerId == "" ==>
      NextStreak(procs, running, streaks, key) == Streak(streaks, key) && !Expires(procs, running, streaks, key)
    ensures key in procs && procs[key].containerId != "" && procs[key].containerId in running ==>
      NextStreak(procs, running, streaks, key) == 0 && !Expires(procs, running, streaks, key)
    ensures key in procs && procs[key].containerId != "" && procs[key].containerId !in running ==>
      if key in streaks && streaks[key] >= 2
      then NextStreak(procs, running, streaks, key) == 0 && Expires(procs, running, streaks, key)
      else NextStreak(procs, running, streaks, key) == (if key in streaks then streaks[key] else 0) + 1
           && !Expires(procs, running, streaks, key)
  {
  }

  class ProcessRuntime {
    var procs: Procs
    var missingStreaks: Streaks

    constructor ()
      ensures procs == map[] && missingStreaks == map[]
    {
      procs, missingStreaks := map[], map[];
    }

    /** One tick. A failed listing changes nothing; otherwise the exits are reported once per expired pod. */
    method CheckContainerdExits(listing: Option<set<string>>) returns (exits: seq<string>)
      modifies this`missingStreaks
      ensures listing == None ==> exits == [] && missingStreaks == old(missingStreaks)
      ensures listing.Some? ==> forall key ::
        Streak(missingStreaks, key) == NextStreak(procs, listing.value, old(missingStreaks), key)
      ensures listing.Some? ==> Listing(exits, set key | key in procs && Expires(procs, listing.value, old(missingStreaks), key))
    {
      if listing == None {
        return [];
      }
      var running := listing.value;
      exits := [];
      ghost var before := missingStreaks;
      ghost var done: set<string> := {};
      var keys := ListKeys(procs.Keys);
      for i := 0 to |keys|
        invariant done == set j | 0 <= j < i :: keys[j]
        invariant forall key :: key in done ==> Streak(missingStreaks, key) == NextStreak(procs, running, before, key)
        invariant forall key :: key !in done ==> Streak(missingStreaks, key) == Streak(before, key)
        invariant Listing(exits, set key | key in done && Expires(procs, running, before, key))
      {
        var key := keys[i];
        assert key !in done;
        done := done + {key};
        var tp := procs[key];
        if tp.containerId == "" {
          continue;
        }
        if tp.containerId in running {
          missingStreaks := missingStreaks - {key};
          continue;
        }
        missingStreaks := missingStreaks[key := Streak(missingStreaks, key) + 1];
        if Streak(missingStreaks, key) < CONFIRMATIONS {
          continue;
        }
        missingStreaks := missingStreaks - {key};
        exits := exits + [key];
      }
      assert done == procs.Keys;
    }

    /** Starting keeps the restart count of a pod that is already tracked. */
    method Start(key: string, containerId: string)
      modifies this`procs
      ensures procs == old(procs)[key := Tracked(containerId, if key in old(procs) then old(procs)[key].restarts else 0)]
    {
      var restarts := 0;
      if key in procs {
        restarts := procs[key].restarts;
      }
      procs := procs[key := Tracked(containerId, restarts)];
    }

    method Restart(key: string, containerId: string)
      modifies this`procs
      ensures procs == old(procs)[key := Tracked(containerId, if key in old(procs) then old(procs)[key].restarts + 1 else 0)]
    {
      if key in procs {
        procs := procs[key := procs[key].(restarts := procs[key].restarts + 1)];
      }
      Start(key, containerId);
    }

    /** Forgets the pod; the streak stays. */
    method Stop(key: string)
      modifies this`procs
      ensures procs == old(procs) - {key}
    {
      procs := procs - {key};
    }
  }

  // ---------------------------------------------------------------- runs

  datatype Event = Checked(running: set<string>) | ListingFailed | Started(key: string, tracked: Tracked) | Stopped(key: string)

  function ProcsAfter(es: seq<Event>): Procs
  {
    if es == [] then map[]
    else
      var before := ProcsAfter(es[..|es| - 1]);
      match es[|es| - 1]
      case Checked(_) => before
      case ListingFailed => before
      case Started(key, tracked) => before[key := tracked]
      case Stopped(key) => before - {key}
  }

  /** Runs of the tracker: the streak map after each event, related as `CheckContainerdExits` relates them. */
  ghost predicate StreaksRun(es: seq<Event>, ss: seq<Streaks>)
  {
    && |ss| == |es| + 1 && ss[0] == map[]
    && (forall i :: 0 <= i < |es| ==> StreaksStep(ProcsAfter(es[..i]), es[i], ss[i], ss[i + 1]))
  }

  ghost predicate StreaksStep(procs: Procs, e: Event, s: Streaks, s': Streaks)
  {
    if e.Checked? then forall key :: Streak(s', key) == NextStreak(procs, e.running, s, key)
    else s' == s
  }

  /** How many observations of this pod in a row, up to now, found its container missing. */
  function TrailingMissing(es: seq<Event>, key: string): nat
  {
    if es == [] then 0
    else
      var n := |es| - 1;
      var e := es[n];
      if e.Checked? && Observed(ProcsAfter(es[..n]), key) then
        if IsMissing(ProcsAfter(es[..n]), e.running, key) then TrailingMissing(es[..n], key) + 1 else 0
      else TrailingMissing(es[..n], key)
  }

  /** The streak is the trailing count modulo three. */
  lemma {:induction false} StreakCounts(es: seq<Event>, ss: seq<Streaks>, key: string)
    requires StreaksRun(es, ss)
    ensures Streak(ss[|es|], key) == TrailingMissing(es, key) % CONFIRMATIONS
  {
    if es != [] {
      var n := |es| - 1;
      StreaksPrefix(es, ss, n);
      StreakCounts(es[..n], ss[..n + 1], key);
      assert StreaksStep(ProcsAfter(es[..n]), es[n], ss[n], ss[n + 1]);
    }
  }

  lemma StreaksPrefix(es: seq<Event>, ss: seq<Streaks>, n: nat)
    requires StreaksRun(es, ss) && n <= |es|
    ensures StreaksRun(es[..n], ss[..n + 1])
  {
    assert forall i :: 0 <= i < n ==> es[..n][..i] == es[..i];
    assert forall i :: 0 <= i < n ==> es[..n][i] == es[i];
  }

  /** Over every run, an exit is reported for a pod exactly when the check observes its container missing and the number of
      trailing missing observations reaches a multiple of three. */
  lemma ExitOnEveryThird(es: seq<Event>, ss: seq<Streaks>, running: set<string>, key: string)
    requires StreaksRun(es, ss)
    ensures Expires(ProcsAfter(es), running, ss[|es|], key) <==>
      && IsMissing(ProcsAfter(es), running, key)
      && TrailingMissing(es + [Checked(running)], key) % CONFIRMATIONS == 0
  {
    StreakCounts(es, ss, key);
    assert (es + [Checked(running)])[..|es|] == es;
  }

  /** Over every run, a pod tracked without a container never exits here. */
  lemma PlainProcessNeverExpires(es: seq<Event>, ss: seq<Streaks>, running: set<string>, key: string)
    requires StreaksRun(es, ss)
    requires key in ProcsAfter(es) && ProcsAfter(es)[key].containerId == ""
    ensures !Expires(ProcsAfter(es), running, ss[|es|], key)
  {
    TickMeans(ProcsAfter(es), running, ss[|es|], key);
  }

  lemma {:induction false} StreakBelowThree(es: seq<Event>, ss: seq<Streaks>, key: string)
    requires StreaksRun(es, ss)
    ensures Streak(ss[|es|], key) < 3
  {
    StreakCounts(es, ss, key);
  }

  /** Three ticks in a row that find the container missing, from a pod seen running or never seen: the exit comes with the
      third and not before. */
  lemma ThirdTickExits(procs: Procs, first: set<string>, second: set<string>, third: set<string>,
                       s0: Streaks, s1: Streaks, s2: Streaks, key: string)
    requires key in procs && procs[key].containerId != "" && procs[key].containerId !in first + second + third
    requires key !in s0
    requires StreaksStep(procs, Checked(first), s0, s1) && StreaksStep(procs, Checked(second), s1, s2)
    ensures !Expires(procs, first, s0, key) && !Expires(procs, second, s1, key) && Expires(procs, third, s2, key)
  {
    TickMeans(procs, first, s0, key);
    assert Streak(s1, key) == 1;
    TickMeans(procs, second, s1, key);
    assert Streak(s2, key) == 2;
  }

  /** The count belongs to the pod and not to its container: after two missing observations, a stop and a start with a new
      container, a single missing observation of the new container reports an exit. */
  lemma FreshContainerExpires(es: seq<Event>, ss: seq<Streaks>, key: string, tracked: Tracked, running: set<string>)
    requires es != [] && TrailingMissing(es, key) % CONFIRMATIONS == 2
    requires tracked.containerId != "" && tracked.containerId !in running
    requires StreaksRun(es + [Stopped(key)] + [Started(key, tracked)], ss)
    ensures var all := es + [Stopped(key)] + [Started(key, tracked)];
      Expires(ProcsAfter(all), running, ss[|all|], key)
  {
    var stopped := es + [Stopped(key)];
    var all := stopped + [Started(key, tracked)];
    assert stopped[..|es|] == es;
    assert all[..|stopped|] == stopped;
    StreakCounts(all, ss, key);
  }
}
