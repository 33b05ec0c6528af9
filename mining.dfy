/**
 * One account's cycle (`processUser`): bind the proxy, fetch the referral
 * info, the username and the balances, then contribute while the power
 * balance is above 500, and finally cool down.
 *
 * The remote calls are inputs: each fetch result is an `Option` (`None` for
 * the `null` the fetch helpers return on any error), and the contribution
 * replies are a sequence consumed one per attempt.
 */
module Mining {
  import opened Options
  import ProxyBinding

  // ------------------------------------------------------- reply shapes

  /** `{ result: { username } }` from the `auth` endpoint. */
  datatype AuthReply = AuthReply(result: Option<AuthResult>)
  datatype AuthResult = AuthResult(username: Option<string>)

  /** `{ result: { profile: { HIVERA, POWER } } }` from `engine/info` and
    * from `v2/engine/contribute`. */
  datatype PowerReply = PowerReply(result: Option<PowerResult>)
  datatype PowerResult = PowerResult(profile: Option<Profile>)
  datatype Profile = Profile(hivera: Option<int>, power: Option<int>)

  /** `profile?.result?.username`. */
  function ReportedUsername(auth: Option<AuthReply>): (name: Option<string>)
    ensures name.Some? <==>
      auth.Some? && auth.value.result.Some? && auth.value.result.value.username.Some?
    ensures name.Some? ==> name == auth.value.result.value.username
  {
    match auth
    case Some(AuthReply(Some(AuthResult(name)))) => name
    case _ => None
  }

  /** `reply?.result?.profile`. */
  function ReportedProfile(reply: Option<PowerReply>): (profile: Option<Profile>)
    ensures profile.Some? <==>
      reply.Some? && reply.value.result.Some? && reply.value.result.value.profile.Some?
    ensures profile.Some? ==> profile == reply.value.result.value.profile
  {
    match reply
    case Some(PowerReply(Some(PowerResult(profile)))) => profile
    case _ => None
  }

  const UNKNOWN_USER: string := "Unknown"

  /** `profile?.result?.username || 'Unknown'`: a string is kept when it is
    * truthy, that is non-empty. */
  function Username(auth: Option<AuthReply>): (name: string)
    ensures name != []
    ensures ReportedUsername(auth) == Some(name) || name == UNKNOWN_USER
    ensures ReportedUsername(auth).Some? && ReportedUsername(auth).value != [] ==> name == ReportedUsername(auth).value
  {
    match ReportedUsername(auth)
    case Some(name) => if name != [] then name else UNKNOWN_USER
    case None => UNKNOWN_USER
  }

  /** `reply?.result?.profile?.POWER || 0`. A number is falsy only when it
    * is 0, which the default replaces by 0 again, so a present value is
    * kept as it is. */
  function Power(reply: Option<PowerReply>): (power: int)
    ensures ReportedProfile(reply).None? || ReportedProfile(reply).value.power.None? ==> power == 0
    ensures ReportedProfile(reply).Some? && ReportedProfile(reply).value.power.Some? ==> power == ReportedProfile(reply).value.power.value
  {
    match ReportedProfile(reply)
    case Some(profile) => profile.power.GetOr(0)
    case None => 0
  }

  /** `powerData?.result?.profile?.HIVERA || 0`. */
  function Hivera(reply: Option<PowerReply>): (hivera: int)
    ensures ReportedProfile(reply).None? || ReportedProfile(reply).value.hivera.None? ==> hivera == 0
    ensures ReportedProfile(reply).Some? && ReportedProfile(reply).value.hivera.Some? ==> hivera == ReportedProfile(reply).value.hivera.value
  {
    match ReportedProfile(reply)
    case Some(profile) => profile.hivera.GetOr(0)
    case None => 0
  }

  // ------------------------------------------------------ the mining loop

  /** Mining goes on while the power is strictly above this. */
  const THRESHOLD: int := 500
  /** The pause after each successful contribution, in milliseconds. */
  const PAUSE_MS: nat := 30 * 1000
  /** The cool-down at the end of the cycle, in milliseconds. */
  const COOLDOWN_MS: nat := 60 * 60 * 1000

  /** What one cycle does, in order: the three fetches, each contribution
    * (and whether its reply was non-null), and each sleep. */
  datatype Event =
    | FetchInfo
    | FetchAuth
    | FetchPower
    | Contribute(accepted: bool)
    | Sleep(ms: nat)

  /** The power after one contribution: a reply replaces it by the reply's
    * `POWER` (or 0), a `null` reply leaves it as it was. */
  function NextPower(power: int, reply: Option<PowerReply>): (next: int)
    ensures reply.None? ==> next == power
    ensures reply.Some? ==> next == Power(reply)
  {
    if reply.Some? then Power(reply) else power
  }

  /** The events of one contribution attempt: a successful one is followed
    * by the 30-second pause, a failed one is retried at once. */
  function AttemptEvents(reply: Option<PowerReply>): seq<Event>
  {
    if reply.Some? then [Contribute(true), Sleep(PAUSE_MS)] else [Contribute(false)]
  }

  /** A turn starts with its contribution, which succeeds exactly when the
    * reply is non-null; only a success is followed by the pause. */
  lemma AttemptShape(reply: Option<PowerReply>)
    ensures var events := AttemptEvents(reply);
      && events != [] && events[0] == Contribute(reply.Some?)
      && |events| == (if reply.Some? then 2 else 1)
      && (reply.Some? ==> events[1] == Sleep(PAUSE_MS))
  {
  }

  /** The result of the mining loop: the final power, how many replies it
    * consumed, and what it did. */
  datatype MineRun = MineRun(power: int, attempts: nat, events: seq<Event>)

  /** The `while (power > 500)` loop of lines 131-140, run against the
    * contribution replies `replies`; it also stops when they run out. */
  function Mine(power: int, replies: seq<Option<PowerReply>>): (run: MineRun)
    ensures run.attempts <= |replies|
    ensures run.attempts == 0 <==> power <= THRESHOLD || replies == []
    ensures run.attempts == 0 ==> run.power == power && run.events == []
    ensures run.attempts < |replies| ==> run.power <= THRESHOLD
    decreases |replies|
  {
    if power <= THRESHOLD || replies == [] then
      MineRun(power, 0, [])
    else
      var rest := Mine(NextPower(power, replies[0]), replies[1..]);
      MineRun(rest.power, rest.attempts + 1, AttemptEvents(replies[0]) + rest.events)
  }

  /** The loop only contributes and pauses for 30 seconds; its first event
    * is the first contribution. */
  lemma {:induction false} MineEvents(power: int, replies: seq<Option<PowerReply>>)
    ensures var run := Mine(power, replies);
      && (run.attempts > 0 ==> |run.events| > 0 && run.events[0] == Contribute(replies[0].Some?))
      && (forall k :: 0 <= k < |run.events| ==> run.events[k].Contribute? || run.events[k] == Sleep(PAUSE_MS))
    decreases |replies|
  {
    if power > THRESHOLD && replies != [] {
      var next := NextPower(power, replies[0]);
      MineEvents(next, replies[1..]);
      var head := AttemptEvents(replies[0]);
      var rest := Mine(next, replies[1..]).events;
      forall k | |head| <= k < |head + rest| ensures (head + rest)[k] == rest[k - |head|] {
      }
    }
  }

  /** The mining loop is entered exactly when the power is above 500: 500
    * itself does not mine, 501 does. */
  lemma StrictThreshold(replies: seq<Option<PowerReply>>)
    ensures Mine(500, replies).attempts == 0
    ensures replies != [] ==> Mine(501, replies).attempts > 0
  {
  }

  /** Contributions that keep failing leave the power as it was and are
    * retried back to back, without any pause. */
  lemma {:induction false} FailuresRetryAtOnce(power: int, replies: seq<Option<PowerReply>>)
    requires power > THRESHOLD
    requires forall k :: 0 <= k < |replies| ==> replies[k].None?
    ensures Mine(power, replies).power == power
    ensures Mine(power, replies).attempts == |replies|
    ensures Mine(power, replies).events == seq(|replies|, _ => Contribute(false))
    decreases |replies|
  {
    if replies != [] {
      FailuresRetryAtOnce(power, replies[1..]);
    }
  }

  /** Replies that keep reporting a power above 500 keep the loop mining,
    * with a pause after every contribution. */
  lemma {:induction false} HighPowerKeepsMining(power: int, replies: seq<Option<PowerReply>>)
    requires power > THRESHOLD
    requires forall k :: 0 <= k < |replies| ==> replies[k].Some? && Power(replies[k]) > THRESHOLD
    ensures Mine(power, replies).attempts == |replies|
    ensures Mine(power, replies).events ==
      seq(2 * |replies|, k => if k % 2 == 0 then Contribute(true) else Sleep(PAUSE_MS))
    decreases |replies|
  {
    if replies != [] {
      HighPowerKeepsMining(Power(replies[0]), replies[1..]);
    }
  }

  /** The power is never computed locally: after the loop it is the
    * starting value or the `POWER` of one of the replies it consumed. */
  lemma {:induction false} PowerComesFromReplies(power: int, replies: seq<Option<PowerReply>>)
    ensures var run := Mine(power, replies);
      run.power == power ||
      exists j :: 0 <= j < run.attempts && replies[j].Some? && run.power == Power(replies[j])
    decreases |replies|
  {
    if power > THRESHOLD && replies != [] {
      var next := NextPower(power, replies[0]);
      PowerComesFromReplies(next, replies[1..]);
      var rest := Mine(next, replies[1..]);
      if rest.power != next {
        var j :| 0 <= j < rest.attempts && replies[1..][j].Some? && rest.power == Power(replies[1..][j]);
        assert replies[j + 1] == replies[1..][j];
      } else if replies[0].Some? {
        assert rest.power == Power(replies[0]);
      }
    }
  }

  /** A pause comes right after each accepted contribution and nowhere else. */
  lemma {:induction false} PauseFollowsSuccess(power: int, replies: seq<Option<PowerReply>>, k: nat)
    requires k < |Mine(power, replies).events|
    ensures Mine(power, replies).events[k] == Sleep(PAUSE_MS) <==>
      k > 0 && Mine(power, replies).events[k - 1] == Contribute(true)
    decreases |replies|
  {
    if power > THRESHOLD && replies != [] {
      var next := NextPower(power, replies[0]);
      var rest := Mine(next, replies[1..]);
      var head := AttemptEvents(replies[0]);
      var events := Mine(power, replies).events;
      assert events == head + rest.events;
      if k >= |head| {
        var k' := k - |head|;
        assert events[k] == rest.events[k'];
        if k' > 0 {
          PauseFollowsSuccess(next, replies[1..], k');
          assert events[k - 1] == rest.events[k' - 1];
        } else {
          MineEvents(next, replies[1..]);
          assert rest.events[0].Contribute?;
          assert events[k - 1] == head[|head| - 1];
        }
      }
    }
  }

  /** One turn of the loop, on the replies from position `i` on. */
  lemma MineStep(power: int, replies: seq<Option<PowerReply>>, i: nat)
    requires power > THRESHOLD && i < |replies|
    ensures var rest := Mine(NextPower(power, replies[i]), replies[i + 1..]);
      Mine(power, replies[i..]) == MineRun(rest.power, rest.attempts + 1, AttemptEvents(replies[i]) + rest.events)
  {
    assert replies[i..][0] == replies[i] && replies[i..][1..] == replies[i + 1..];
  }

  // ------------------------------------------------------- the whole cycle

  /** How a call of `processUser` ends. */
  datatype CycleReport =
    | Aborted
      // the proxy agent could not be built: the error is caught and logged,
      // nothing is fetched and there is no cool-down
    | Ran(username: string, hivera: int, initialPower: int, finalPower: int,
          attempts: nat, events: seq<Event>, cooledDown: bool)
      // `cooledDown` is false only when the replies ran out while the
      // power was still above the threshold

  /** The specification of one cycle. */
  function Cycle(proxy: Option<string>, agentConstructs: bool, auth: Option<AuthReply>,
                 powerData: Option<PowerReply>, replies: seq<Option<PowerReply>>): CycleReport
  {
    if ProxyBinding.CreateProxyAgent(proxy, agentConstructs) == ProxyBinding.ConstructionFailed then
      Aborted
    else
      var initial := Power(powerData);
      var run := Mine(initial, replies);
      var cooled := run.power <= THRESHOLD;
      Ran(Username(auth), Hivera(powerData), initial, run.power, run.attempts,
          [FetchInfo, FetchAuth, FetchPower] + run.events + (if cooled then [Sleep(COOLDOWN_MS)] else []),
          cooled)
  }

  /** A cycle is cut short exactly when a non-empty proxy URL is given and
    * the agent library rejects it. */
  lemma AbortedIff(proxy: Option<string>, agentConstructs: bool, auth: Option<AuthReply>,
                   powerData: Option<PowerReply>, replies: seq<Option<PowerReply>>)
    ensures Cycle(proxy, agentConstructs, auth, powerData, replies).Aborted? <==>
      proxy.Some? && proxy.value != [] && !agentConstructs
  {
  }

  predicate IsFetch(e: Event)
  {
    e.FetchInfo? || e.FetchAuth? || e.FetchPower?
  }

  /** The order of a cycle: the three fetches come first and are never
    * repeated; the one-hour cool-down happens at most once, only after the
    * mining loop has exited, and ends the cycle. */
  lemma CycleShape(proxy: Option<string>, agentConstructs: bool, auth: Option<AuthReply>,
                   powerData: Option<PowerReply>, replies: seq<Option<PowerReply>>)
    ensures var report := Cycle(proxy, agentConstructs, auth, powerData, replies);
      report.Ran? ==>
        && |report.events| >= 3
        && report.events[..3] == [FetchInfo, FetchAuth, FetchPower]
        && (forall k :: 3 <= k < |report.events| ==> !IsFetch(report.events[k]))
        && (forall k :: 0 <= k < |report.events| && report.events[k] == Sleep(COOLDOWN_MS) ==>
              report.cooledDown && k == |report.events| - 1)
        && (report.cooledDown ==> report.events[|report.events| - 1] == Sleep(COOLDOWN_MS))
  {
    var report := Cycle(proxy, agentConstructs, auth, powerData, replies);
    if report.Ran? {
      var run := Mine(Power(powerData), replies);
      var tail := if report.cooledDown then [Sleep(COOLDOWN_MS)] else [];
      assert report.events == [FetchInfo, FetchAuth, FetchPower] + run.events + tail;
      MineEvents(Power(powerData), replies);
      forall k | 3 <= k < 3 + |run.events|
        ensures report.events[k] == run.events[k - 3]
      {
      }
    }
  }

  /** No usable power balance (a `null` reply, or one without `POWER`)
    * means power 0: no contribution is attempted and the cycle goes
    * straight to the cool-down. */
  lemma AbsentPowerSkipsMining(proxy: Option<string>, agentConstructs: bool, auth: Option<AuthReply>,
                               powerData: Option<PowerReply>, replies: seq<Option<PowerReply>>)
    requires ReportedProfile(powerData).None? || ReportedProfile(powerData).value.power.None?
    ensures var report := Cycle(proxy, agentConstructs, auth, powerData, replies);
      report.Ran? ==>
        && report.initialPower == 0 && report.attempts == 0 && report.cooledDown
        && report.events == [FetchInfo, FetchAuth, FetchPower, Sleep(COOLDOWN_MS)]
  {
  }

  /** The mining loop of `processUser` (lines 131-140), starting from the
    * fetched power. */
  method MineLoop(initial: int, replies: seq<Option<PowerReply>>)
    returns (power: int, attempts: nat, mined: seq<Event>)
    ensures MineRun(power, attempts, mined) == Mine(initial, replies)
  {
    power := initial;
    mined := [];
    attempts := 0;
    while power > THRESHOLD && attempts < |replies|
      invariant attempts <= |replies|
      invariant Mine(initial, replies).power == Mine(power, replies[attempts..]).power
      invariant Mine(initial, replies).attempts == attempts + Mine(power, replies[attempts..]).attempts
      invariant Mine(initial, replies).events == mined + Mine(power, replies[attempts..]).events
      decreases |replies| - attempts
    {
      MineStep(power, replies, attempts);
      var contributeData := replies[attempts];
      if contributeData.Some? {
        power := Power(contributeData);
        mined := mined + [Contribute(true), Sleep(PAUSE_MS)];
      } else {
        mined := mined + [Contribute(false)];
      }
      attempts := attempts + 1;
    }
  }

  /** `processUser(userData, proxy)`. The credential itself only reaches the
    * remote calls, whose results are the parameters here. */
  method ProcessUser(proxy: Option<string>, agentConstructs: bool, auth: Option<AuthReply>,
                     powerData: Option<PowerReply>, replies: seq<Option<PowerReply>>)
    returns (report: CycleReport)
    ensures report == Cycle(proxy, agentConstructs, auth, powerData, replies)
  {
    var agent := ProxyBinding.CreateProxyAgent(proxy, agentConstructs);
    if agent == ProxyBinding.ConstructionFailed {
      return Aborted;
    }
    var username := Username(auth);
    var hivera := Hivera(powerData);
    var initial := Power(powerData);
    var power, attempts, mined := MineLoop(initial, replies);
    var cooled := power <= THRESHOLD;
    var cooldown := if cooled then [Sleep(COOLDOWN_MS)] else [];
    report := Ran(username, hivera, initial, power, attempts,
                  [FetchInfo, FetchAuth, FetchPower] + mined + cooldown, cooled);
  }

  /** A cycle that ran cools down exactly when its final power is at most
    * 500; otherwise the loop has used up every reply it was given. */
  lemma CooldownIffLowPower(proxy: Option<string>, agentConstructs: bool, auth: Option<AuthReply>,
                            powerData: Option<PowerReply>, replies: seq<Option<PowerReply>>)
    ensures var report := Cycle(proxy, agentConstructs, auth, powerData, replies);
      report.Ran? ==>
        && (report.cooledDown <==> report.finalPower <= THRESHOLD)
        && (!report.cooledDown ==> report.attempts == |replies|)
  {
  }
}
