/** What the refresh and sign-out protocol owes an honest caller (auth/jwt.go): a refusal always has its cause, and a
    caller that has none against it, left alone with stores that answer, is served. */
module RefreshProgress {
  import opened Options
  import opened Blacklist
  import opened RefreshProtocol

  /** A logged bump made key's generation exceed generation. */
  ghost predicate BumpedPast(log: seq<Entry>, key: string, generation: int) {
    exists k :: 0 <= k < |log| && log[k].Bumped? && log[k].key == key && log[k].generation > generation
  }

  /** The token is older than its user's generation: it claims less than any counter starts at, or a bump passed it. */
  ghost predicate Outdated(log: seq<Entry>, key: string, generation: int) {
    generation < 0 || BumpedPast(log, key, generation)
  }

  // ---------------------------------------------------------------- every refusal has its cause

  /** A counter shows what the last logged bump set it to. */
  ghost predicate CountersLogged(sh: Shared, log: seq<Entry>) {
    forall key | CurrentGeneration(sh.counts, key) > 0 :: BumpedPast(log, key, CurrentGeneration(sh.counts, key) - 1)
  }

  /** What a refusal means, in terms of the token, the clock and the log. */
  ghost predicate Caused(sh: Shared, log: seq<Entry>, job: Job, why: Refusal)
    requires job.Refresh? || job.SignOut?
  {
    var claims := job.claims;
    match why
    case ClaimMissing => claims.exp.None? || claims.jti == ""
    case TokenExpired => claims.exp.Some? && claims.exp.value <= sh.clock
    case NotARefreshToken => job.Refresh? && claims.tokenType != "refresh"
    case TokenUsed => job.Refresh? && Spent(log, claims.jti)
    case GenerationStale =>
      if job.Refresh? then Outdated(log, RefreshKey(claims.uid), claims.generation)
      else claims.tokenType == "refresh" && Outdated(log, SignOutKey(claims.uid), claims.generation)
    case _ => true
  }

  /** The refusal of a caller has its cause; an entry a lookup has read and that is not over is still there; only
      refreshes and lookups look into the blacklist, and only when it is enabled. */
  ghost predicate CauseInv(cfg: Config, sh: Shared, log: seq<Entry>, caller: Caller) {
    && (InLookup(caller.pc) ==> caller.job.Refresh? || caller.job.Lookup?)
    && (caller.pc.Consume? ==> cfg.blacklistEnabled)
    && (caller.job.Lookup? && !cfg.blacklistEnabled ==> caller.pc == Done(Answer(false)))
    && ((caller.job.Refresh? || caller.job.SignOut?) && caller.pc.Done? && caller.pc.outcome.Refused? ==>
          Caused(sh, log, caller.job, caller.pc.outcome.why))
    && (caller.job.SignOut? && caller.pc.SoGeneration? ==> caller.job.claims.tokenType == "refresh")
    && (caller.pc.BlClock? && sh.clock <= caller.pc.read ==>
          caller.job.Jti() in sh.entries && caller.pc.read <= sh.entries[caller.job.Jti()])
  }

  ghost predicate ProgressInv(s: State) {
    && CountersLogged(s.shared, s.log)
    && forall i :: 0 <= i < |s.callers| ==> CauseInv(s.cfg, s.shared, s.log, s.callers[i])
  }

  lemma BumpStays(log: seq<Entry>, log': seq<Entry>, key: string, generation: int)
    requires log <= log' && BumpedPast(log, key, generation)
    ensures BumpedPast(log', key, generation)
  {
    var k :| 0 <= k < |log| && log[k].Bumped? && log[k].key == key && log[k].generation > generation;
    assert log'[k] == log[k];
  }

  lemma CauseStays(cfg: Config, sh: Shared, log: seq<Entry>, sh': Shared, log': seq<Entry>, caller: Caller)
    requires CauseInv(cfg, sh, log, caller) && Moves(sh, log, sh', log')
    ensures CauseInv(cfg, sh', log', caller)
  {
    if (caller.job.Refresh? || caller.job.SignOut?) && caller.pc.Done? && caller.pc.outcome.Refused? {
      var claims := caller.job.claims;
      var key := if caller.job.Refresh? then RefreshKey(claims.uid) else SignOutKey(claims.uid);
      if BumpedPast(log, key, claims.generation) {
        BumpStays(log, log', key, claims.generation);
      }
      if Spent(log, claims.jti) {
        SpentStays(log, log', claims.jti);
      }
    }
  }

  lemma CountersKept(s: State, e: Event)
    requires CountersLogged(s.shared, s.log) && Enabled(s, e)
    ensures CountersLogged(Apply(s, e).shared, Apply(s, e).log)
  {
    var s' := Apply(s, e);
    forall key | CurrentGeneration(s'.shared.counts, key) > 0
      ensures BumpedPast(s'.log, key, CurrentGeneration(s'.shared.counts, key) - 1)
    {
      var now := CurrentGeneration(s'.shared.counts, key);
      if now == CurrentGeneration(s.shared.counts, key) {
        BumpStays(s.log, s'.log, key, now - 1);
      } else {
        assert s'.log[|s.log|] == Bumped(key, now);
      }
    }
  }

  /** A stale answer at a generation check. */
  lemma StaleIsOutdated(sh: Shared, log: seq<Entry>, key: string, generation: int)
    requires CountersLogged(sh, log) && generation < CurrentGeneration(sh.counts, key)
    ensures Outdated(log, key, generation)
  {
    if generation >= 0 {
      var top := CurrentGeneration(sh.counts, key) - 1;
      var k :| 0 <= k < |log| && log[k].Bumped? && log[k].key == key && log[k].generation > top;
      assert log[k].generation > generation;
    }
  }

  lemma VerifyCause(cfg: Config, sh: Shared, log: seq<Entry>, caller: Caller, choice: Choice)
    requires (caller.job.Refresh? || caller.job.SignOut?) && caller.pc.Verify?
    ensures CauseInv(cfg, sh, log, caller.(pc := StepVerify(cfg, sh, caller.job, choice).pc))
  {
  }

  lemma LookupCause(cfg: Config, sh: Shared, log: seq<Entry>, caller: Caller, choice: Choice)
    requires InLookup(caller.pc) && CauseInv(cfg, sh, log, caller) && EntriesExplained(sh, log)
    requires caller.pc.BlClock? ==> Spent(log, caller.job.Jti())
    ensures var step := StepLookup(sh, caller.job, caller.pc, choice);
      CauseInv(cfg, OpShared(sh, step.op), log, caller.(pc := step.pc))
  {
  }

  lemma RefreshCause(cfg: Config, sh: Shared, log: seq<Entry>, me: nat, caller: Caller, choice: Choice)
    requires caller.job.Refresh? && caller.job.claims.exp.Some? && PastVerify(caller.pc) && !InLookup(caller.pc)
    requires CountersLogged(sh, log)
    requires caller.pc.Unconsumed? ==> Spent(log, caller.job.claims.jti) || caller.job.claims.exp.value <= sh.clock
    ensures var step := StepRefresh(cfg, sh, me, caller.job.claims, caller.pc, choice);
      CauseInv(cfg, OpShared(sh, step.op), log, caller.(pc := step.pc))
  {
    var claims := caller.job.claims;
    if claims.generation < CurrentGeneration(sh.counts, RefreshKey(claims.uid)) {
      StaleIsOutdated(sh, log, RefreshKey(claims.uid), claims.generation);
    }
  }

  lemma SignOutCause(cfg: Config, sh: Shared, log: seq<Entry>, caller: Caller, choice: Choice)
    requires caller.job.SignOut? && caller.job.claims.exp.Some? && PastVerify(caller.pc) && !InLookup(caller.pc)
    requires CountersLogged(sh, log) && CauseInv(cfg, sh, log, caller)
    ensures var step := StepSignOut(cfg, sh, |log|, caller.job.claims, caller.pc, choice);
      CauseInv(cfg, OpShared(sh, step.op), log, caller.(pc := step.pc))
  {
    var claims := caller.job.claims;
    if claims.generation < CurrentGeneration(sh.counts, SignOutKey(claims.uid)) {
      StaleIsOutdated(sh, log, SignOutKey(claims.uid), claims.generation);
    }
  }

  lemma RevokeCause(cfg: Config, sh: Shared, log: seq<Entry>, caller: Caller, choice: Choice)
    requires caller.job.Revoke? && !InLookup(caller.pc) && CauseInv(cfg, sh, log, caller)
    ensures var step := StepRevoke(cfg, sh, caller.job, caller.pc, choice);
      CauseInv(cfg, OpShared(sh, step.op), log, caller.(pc := step.pc))
  {
  }

  lemma OwnCause(cfg: Config, sh: Shared, log: seq<Entry>, me: nat, caller: Caller, choice: Choice)
    requires CallerInv(cfg, sh, log, me, caller) && CauseInv(cfg, sh, log, caller)
    requires EntriesExplained(sh, log) && CountersLogged(sh, log)
    ensures var step := StepCaller(cfg, sh, |log|, me, caller, choice);
      CauseInv(cfg, OpShared(sh, step.op), log, caller.(pc := step.pc))
  {
    if caller.pc.Done? {
    } else if caller.pc.Verify? {
      VerifyCause(cfg, sh, log, caller, choice);
    } else if InLookup(caller.pc) {
      LookupCause(cfg, sh, log, caller, choice);
    } else {
      match caller.job
      case Refresh(_) => RefreshCause(cfg, sh, log, me, caller, choice);
      case SignOut(_) => SignOutCause(cfg, sh, log, caller, choice);
      case Revoke(_, _) => RevokeCause(cfg, sh, log, caller, choice);
      case Lookup(_) =>
    }
  }

  lemma ProgressKept(s: State, e: Event)
    requires Inv(s) && ProgressInv(s) && Enabled(s, e)
    ensures ProgressInv(Apply(s, e))
  {
    var s' := Apply(s, e);
    EventKeeps(s, e);
    CountersKept(s, e);
    forall i | 0 <= i < |s'.callers|
      ensures CauseInv(s.cfg, s'.shared, s'.log, s'.callers[i])
    {
      if e.Advance? && i == e.caller {
        AdvancedCause(s, i, e.choice);
      } else if i < |s.callers| {
        CauseStays(s.cfg, s.shared, s.log, s'.shared, s'.log, s.callers[i]);
      }
    }
  }

  lemma AdvancedCause(s: State, i: nat, choice: Choice)
    requires Inv(s) && ProgressInv(s) && i < |s.callers| && WellPlaced(s.callers[i])
    ensures var s' := Apply(s, Advance(i, choice)); CauseInv(s.cfg, s'.shared, s'.log, s'.callers[i])
  {
    var caller := s.callers[i];
    assert CallerInv(s.cfg, s.shared, s.log, i, caller) && CauseInv(s.cfg, s.shared, s.log, caller);
    var step := StepCaller(s.cfg, s.shared, |s.log|, i, caller, choice);
    OwnCause(s.cfg, s.shared, s.log, i, caller, choice);
    var sh, log := OpShared(s.shared, step.op), s.log + OpRecord(s.shared, step.op);
    CauseInLongerLog(s.cfg, sh, s.log, log, caller.(pc := step.pc));
  }

  /** What a step leaves true of the record of a longer log. */
  lemma CauseInLongerLog(cfg: Config, sh: Shared, log: seq<Entry>, log': seq<Entry>, caller: Caller)
    requires CauseInv(cfg, sh, log, caller) && log <= log'
    ensures CauseInv(cfg, sh, log', caller)
  {
    CauseStays(cfg, sh, log, sh, log', caller);
  }

  lemma {:induction false} RunProgress(s: State, run: seq<Event>)
    requires Inv(s) && ProgressInv(s) && Legal(s, run)
    ensures Inv(Exec(s, run)) && ProgressInv(Exec(s, run))
    decreases |run|
  {
    if run != [] {
      EventKeeps(s, run[0]);
      ProgressKept(s, run[0]);
      RunProgress(Apply(s, run[0]), run[1..]);
    }
  }

  lemma ReachedProgress(cfg: Config, clock: Time, run: seq<Event>, s: State)
    requires Reached(cfg, clock, run, s)
    ensures Inv(s) && ProgressInv(s) && s.cfg == cfg
  {
    ReachedInv(cfg, clock, run, s);
    RunProgress(Initial(cfg, clock), run);
  }

  /** In every reached state a refusal has its cause: an expired refusal an expired token, a stale one a logged bump
      past the token's generation, a used one an earlier consume or revocation, and so on. */
  lemma RefusalHasCause(cfg: Config, clock: Time, run: seq<Event>, s: State, i: nat)
    requires Reached(cfg, clock, run, s) && i < |s.callers| && (s.callers[i].job.Refresh? || s.callers[i].job.SignOut?)
    requires s.callers[i].pc.Done? && s.callers[i].pc.outcome.Refused?
    ensures Caused(s.shared, s.log, s.callers[i].job, s.callers[i].pc.outcome.why)
  {
    ReachedProgress(cfg, clock, run, s);
    assert CauseInv(s.cfg, s.shared, s.log, s.callers[i]);
  }

  /** With the blacklist disabled no id is on it. */
  lemma DisabledListsNothing(cfg: Config, clock: Time, run: seq<Event>, s: State, i: nat)
    requires Reached(cfg, clock, run, s) && !cfg.blacklistEnabled && i < |s.callers| && s.callers[i].job.Lookup?
    ensures s.callers[i].pc == Done(Answer(false))
  {
    ReachedProgress(cfg, clock, run, s);
    assert CauseInv(cfg, s.shared, s.log, s.callers[i]);
  }

  /** After the blacklist lookup, which may take any time, a refresh goes on exactly when the token has not expired. */
  lemma RecheckIsExact(s: State, i: nat, choice: Choice)
    requires i < |s.callers| && s.callers[i].job.Refresh? && WellPlaced(s.callers[i]) && s.callers[i].pc.Recheck?
    ensures var pc := Apply(s, Advance(i, choice)).callers[i].pc;
      if s.shared.clock < s.callers[i].job.claims.exp.value then pc.TypeCheck? else pc == Done(Refused(TokenExpired))
  {
  }

  /** The refusals without a cause of that kind come from a store or the user lookup failing at that very step. */
  lemma OutageRefusesOnly(s: State, i: nat, choice: Choice)
    requires i < |s.callers| && WellPlaced(s.callers[i]) && !s.callers[i].pc.Done?
    requires var pc := Apply(s, Advance(i, choice)).callers[i].pc;
      pc.Done? && pc.outcome.Refused?
      && pc.outcome.why in {NotVerified, GenerationUnavailable, UserUnavailable, BlacklistUnavailable}
    ensures choice.Fail? || (s.callers[i].pc.FindUser? && !choice.Found?)
  {
  }

  // ---------------------------------------------------------------- left alone, an honest caller is served

  /** Caller m moves n times, nobody else does, and every store answers; its user is found with this subject. */
  function Alone(m: nat, subject: string, n: nat): seq<Event> {
    seq(n, i => Advance(m, Found(subject)))
  }

  /** Nothing stands against the token: it is a refresh token with an id, before its expiry, not on the blacklist, and
      no bump of its user has passed it. */
  ghost predicate InOrder(s: State, claims: Claims) {
    && claims.tokenType == "refresh" && claims.jti != ""
    && claims.exp.Some? && s.shared.clock < claims.exp.value
    && (s.cfg.blacklistEnabled ==> !Live(s.shared.entries, claims.jti, s.shared.clock))
    && !Outdated(s.log, RefreshKey(claims.uid), claims.generation)
  }

  /** How many steps a refresh still has ahead at most. */
  function Ahead(pc: Pc): nat {
    match pc
    case Verify => 12
    case BlRead => 11
    case BlClock(_) => 10
    case BlDrop(_) => 9
    case Recheck => 8
    case TypeCheck => 7
    case FirstGeneration => 6
    case FindUser => 5
    case FinalGeneration(_) => 4
    case FinalExpiry(_) => 3
    case Consume(_) => 2
    case Sign(_) => 1
    case _ => 0
  }

  /** Whom the refresh will sign for: the identity it has a snapshot of, or the one its user lookup will find. */
  function WillSignFor(pc: Pc, found: string): string {
    if pc.FinalGeneration? || pc.FinalExpiry? || pc.Consume? || pc.Sign? then pc.subject else found
  }

  /** m is a refresh under way, and nothing stands against it. */
  ghost predicate OnItsWay(s: State, m: nat) {
    && m < |s.callers| && s.callers[m].job.Refresh? && Ahead(s.callers[m].pc) > 0
    && (s.callers[m].pc.Sign? || InOrder(s, s.callers[m].job.claims))
  }

  lemma NotOutdatedPasses(sh: Shared, log: seq<Entry>, key: string, generation: int)
    requires CountersLogged(sh, log) && !Outdated(log, key, generation)
    ensures CurrentGeneration(sh.counts, key) <= generation
  {
    if generation < CurrentGeneration(sh.counts, key) {
      StaleIsOutdated(sh, log, key, generation);
    }
  }

  lemma NextPc(cfg: Config, sh: Shared, logged: nat, m: nat, caller: Caller, subject: string)
    requires caller.job.Refresh? && WellPlaced(caller) && Ahead(caller.pc) > 0
    requires var claims := caller.job.claims;
      caller.pc.Sign?
      || (&& claims.tokenType == "refresh" && claims.jti != "" && claims.exp.Some? && sh.clock < claims.exp.value
          && (cfg.blacklistEnabled ==> !Live(sh.entries, claims.jti, sh.clock))
          && CurrentGeneration(sh.counts, RefreshKey(claims.uid)) <= claims.generation)
    requires InLookup(caller.pc) || caller.pc.Consume? ==> cfg.blacklistEnabled
    requires caller.pc.BlClock? ==> caller.pc.read < sh.clock
    ensures var pc', pc := StepCaller(cfg, sh, logged, m, caller, Found(subject)).pc, caller.pc;
      if pc.Sign? then pc' == Done(Minted(pc.subject))
      else 0 < Ahead(pc') < Ahead(pc) && WillSignFor(pc', subject) == WillSignFor(pc, subject)
  {
  }

  lemma NotPassedBy(log: seq<Entry>, record: seq<Entry>, key: string, generation: int)
    requires !Outdated(log, key, generation) && forall k :: 0 <= k < |record| ==> !record[k].Bumped?
    ensures !Outdated(log + record, key, generation)
  {
  }

  /** A refresh nothing stands against gets one step nearer to its signature, for the same subject. */
  lemma NextStep(s: State, m: nat, subject: string)
    requires Inv(s) && ProgressInv(s) && OnItsWay(s, m)
    ensures Enabled(s, Advance(m, Found(subject)))
    ensures var t, pc := Apply(s, Advance(m, Found(subject))), s.callers[m].pc;
      if pc.Sign? then t.callers[m].pc == Done(Minted(pc.subject))
      else OnItsWay(t, m) && Ahead(t.callers[m].pc) < Ahead(pc)
           && WillSignFor(t.callers[m].pc, subject) == WillSignFor(pc, subject)
  {
    var caller := s.callers[m];
    var claims := caller.job.claims;
    assert CallerInv(s.cfg, s.shared, s.log, m, caller) && CauseInv(s.cfg, s.shared, s.log, caller);
    if !caller.pc.Sign? {
      NotOutdatedPasses(s.shared, s.log, RefreshKey(claims.uid), claims.generation);
    }
    NextPc(s.cfg, s.shared, |s.log|, m, caller, subject);
    var step := StepCaller(s.cfg, s.shared, |s.log|, m, caller, Found(subject));
    if !caller.pc.Sign? && !step.pc.Sign? {
      NotPassedBy(s.log, OpRecord(s.shared, step.op), RefreshKey(claims.uid), claims.generation);
    }
  }

  /** In every reached state, a refresh under way against which nothing stands, left alone with stores that answer,
      mints a token within twelve steps, for the identity it looked up. */
  lemma HonestRefreshIsServed(cfg: Config, clock: Time, run: seq<Event>, s: State, m: nat, subject: string)
    returns (n: nat)
    requires Reached(cfg, clock, run, s) && OnItsWay(s, m)
    ensures n <= 12 && Legal(s, Alone(m, subject, n))
    ensures var t := Exec(s, Alone(m, subject, n));
      m < |t.callers| && t.callers[m].pc == Done(Minted(WillSignFor(s.callers[m].pc, subject)))
  {
    ReachedProgress(cfg, clock, run, s);
    n := ServedFrom(s, m, subject);
  }

  lemma ServedFrom(s: State, m: nat, subject: string) returns (n: nat)
    requires Inv(s) && ProgressInv(s) && OnItsWay(s, m)
    ensures n <= Ahead(s.callers[m].pc) && Legal(s, Alone(m, subject, n))
    ensures var t := Exec(s, Alone(m, subject, n));
      m < |t.callers| && t.callers[m].pc == Done(Minted(WillSignFor(s.callers[m].pc, subject)))
    decreases Ahead(s.callers[m].pc)
  {
    var e := Advance(m, Found(subject));
    NextStep(s, m, subject);
    var t := Apply(s, e);
    var rest := 0;
    if !s.callers[m].pc.Sign? {
      EventKeeps(s, e);
      ProgressKept(s, e);
      rest := ServedFrom(t, m, subject);
    }
    n := rest + 1;
    assert Alone(m, subject, n) == [e] + Alone(m, subject, rest);
    Then(s, e, t, Alone(m, subject, rest));
  }

  /** One move of a caller that is left alone, and the rest of them. */
  lemma AloneStep(s: State, m: nat, n: nat)
    requires m < |s.callers| && WellPlaced(s.callers[m]) && n > 0
    requires Legal(Apply(s, Advance(m, Found(""))), Alone(m, "", n - 1))
    ensures Legal(s, Alone(m, "", n))
    ensures Exec(s, Alone(m, "", n)) == Exec(Apply(s, Advance(m, Found(""))), Alone(m, "", n - 1))
  {
    assert Alone(m, "", n) == [Advance(m, Found(""))] + Alone(m, "", n - 1);
    Then(s, Advance(m, Found("")), Apply(s, Advance(m, Found(""))), Alone(m, "", n - 1));
  }

  lemma {:induction false} DoneStays(s: State, m: nat, n: nat)
    requires m < |s.callers| && s.callers[m].pc.Done? && WellPlaced(s.callers[m])
    ensures Legal(s, Alone(m, "", n)) && m < |Exec(s, Alone(m, "", n)).callers|
    ensures Exec(s, Alone(m, "", n)).callers[m].pc == s.callers[m].pc
    ensures Exec(s, Alone(m, "", n)).shared == s.shared
    decreases n
  {
    if n > 0 {
      DoneStays(Apply(s, Advance(m, Found(""))), m, n - 1);
      AloneStep(s, m, n);
    }
  }

  /** A lookup left alone answers, within three steps, whether the id is on the blacklist when it starts, and leaves no
      expired entry of it behind. */
  lemma LookupTellsTruth(s: State, m: nat)
    requires m < |s.callers| && s.callers[m].job.Lookup? && s.callers[m].pc.BlRead?
    ensures Legal(s, Alone(m, "", 3)) && m < |Exec(s, Alone(m, "", 3)).callers|
    ensures Exec(s, Alone(m, "", 3)).callers[m].pc ==
      Done(Answer(Live(s.shared.entries, s.callers[m].job.jti, s.shared.clock)))
    ensures s.callers[m].job.jti in Exec(s, Alone(m, "", 3)).shared.entries <==>
      Live(s.shared.entries, s.callers[m].job.jti, s.shared.clock)
  {
    var s1 := Apply(s, Advance(m, Found("")));
    if s1.callers[m].pc.Done? {
      DoneStays(s1, m, 2);
    } else {
      var s2 := Apply(s1, Advance(m, Found("")));
      if s2.callers[m].pc.Done? {
        DoneStays(s2, m, 1);
      } else {
        DoneStays(Apply(s2, Advance(m, Found(""))), m, 0);
        AloneStep(s2, m, 1);
      }
      AloneStep(s1, m, 2);
    }
    AloneStep(s, m, 3);
  }

  /** m is a sign-out that has not failed so far, and nothing stands against it: its token has an id and is before its
      expiry, and a refresh token is not outdated. */
  ghost predicate SigningOut(s: State, m: nat) {
    && m < |s.callers| && s.callers[m].job.SignOut?
    && var claims, pc := s.callers[m].job.claims, s.callers[m].pc;
       && (pc.Verify? || pc.SoGeneration? || pc.SoAdd? || pc == SoBump(true))
       && claims.exp.Some? && s.shared.clock < claims.exp.value && claims.jti != ""
       && (claims.tokenType == "refresh" && (pc.Verify? || pc.SoGeneration?) ==>
             !Outdated(s.log, SignOutKey(claims.uid), claims.generation))
  }

  function SignOutAhead(pc: Pc): nat {
    match pc
    case Verify => 4
    case SoGeneration => 3
    case SoAdd => 2
    case SoBump(_) => 1
    case _ => 0
  }

  lemma NextSignOutStep(s: State, m: nat)
    requires Inv(s) && ProgressInv(s) && SigningOut(s, m)
    ensures Enabled(s, Advance(m, Found("")))
    ensures var t, pc := Apply(s, Advance(m, Found(""))), s.callers[m].pc;
      if pc.SoBump? then t.callers[m].pc.Done? && t.callers[m].pc.outcome.SignedOut? && WellPlaced(t.callers[m])
      else SigningOut(t, m) && SignOutAhead(t.callers[m].pc) < SignOutAhead(pc)
  {
    var caller := s.callers[m];
    var claims := caller.job.claims;
    assert CallerInv(s.cfg, s.shared, s.log, m, caller) && CauseInv(s.cfg, s.shared, s.log, caller);
    if caller.pc.SoGeneration? {
      NotOutdatedPasses(s.shared, s.log, SignOutKey(claims.uid), claims.generation);
    }
    assert s.log + [] == s.log;
  }

  /** In every reached state such a sign-out, left alone with stores that answer, reports success within four steps. */
  lemma HonestSignOutSucceeds(cfg: Config, clock: Time, run: seq<Event>, s: State, m: nat)
    requires Reached(cfg, clock, run, s) && SigningOut(s, m)
    ensures Legal(s, Alone(m, "", 4)) && m < |Exec(s, Alone(m, "", 4)).callers|
    ensures var pc := Exec(s, Alone(m, "", 4)).callers[m].pc; pc.Done? && pc.outcome.SignedOut?
  {
    ReachedProgress(cfg, clock, run, s);
    SignOutFrom(s, m, 4);
  }

  lemma SignOutFrom(s: State, m: nat, n: nat)
    requires Inv(s) && ProgressInv(s) && SigningOut(s, m) && SignOutAhead(s.callers[m].pc) <= n
    ensures Legal(s, Alone(m, "", n)) && m < |Exec(s, Alone(m, "", n)).callers|
    ensures var pc := Exec(s, Alone(m, "", n)).callers[m].pc; pc.Done? && pc.outcome.SignedOut?
    decreases n
  {
    var e := Advance(m, Found(""));
    NextSignOutStep(s, m);
    var t := Apply(s, e);
    if s.callers[m].pc.SoBump? {
      DoneStays(t, m, n - 1);
    } else {
      EventKeeps(s, e);
      ProgressKept(s, e);
      SignOutFrom(t, m, n - 1);
    }
    AloneStep(s, m, n);
  }

  // ---------------------------------------------------------------- the other events

  /** A cleanup drops exactly the entries that are over; time passes for everybody at once; an issue and a bump are
      recorded, the bump with the generation it led to. */
  lemma EventsTakeEffect(s: State, elapsed: nat, claims: Claims, key: string, jti: string)
    requires Enabled(s, Issue(claims, key, false))
    ensures var after := Apply(s, Cleanup).shared.entries;
      jti in after <==> Live(s.shared.entries, jti, s.shared.clock)
    ensures Apply(s, Tick(elapsed)) == s.(shared := s.shared.(clock := s.shared.clock + elapsed))
    ensures Apply(s, Issue(claims, key, false)).log == s.log + [Issued(claims, key)]
    ensures var t := Apply(s, Bump(key));
      key != "" ==> && CurrentGeneration(t.shared.counts, key) == CurrentGeneration(s.shared.counts, key) + 1
                    && t.log == s.log + [Bumped(key, CurrentGeneration(t.shared.counts, key))]
  {
  }

  // ---------------------------------------------------------------- a revocation holds

  /** The id was put on the blacklist until this deadline, or the deadline is over. */
  ghost predicate ListedUntil(sh: Shared, log: seq<Entry>, jti: string, until: Time) {
    until <= sh.clock || exists i :: 0 <= i < |log| && log[i].Added? && log[i].jti == jti && log[i].exp == until
  }

  /** A revocation with an expiry of its own. */
  predicate RevokesUntil(job: Job, until: Time) {
    job.Revoke? && job.expiry == Some(until) && until != 0
  }

  ghost predicate RevokeInv(cfg: Config, sh: Shared, log: seq<Entry>, caller: Caller) {
    forall until | RevokesUntil(caller.job, until) ::
      && (caller.pc.RevokeAdd? ==> caller.pc.until == until)
      && (caller.pc == Done(Revoked) && cfg.blacklistEnabled ==> ListedUntil(sh, log, caller.job.jti, until))
  }

  lemma RevokeStays(cfg: Config, sh: Shared, log: seq<Entry>, sh': Shared, log': seq<Entry>, caller: Caller)
    requires RevokeInv(cfg, sh, log, caller) && Moves(sh, log, sh', log')
    ensures RevokeInv(cfg, sh', log', caller)
  {
    assert forall i :: 0 <= i < |log| ==> log'[i] == log[i];
  }

  lemma OwnRevoke(s: State, i: nat, choice: Choice)
    requires i < |s.callers| && WellPlaced(s.callers[i]) && RevokeInv(s.cfg, s.shared, s.log, s.callers[i])
    ensures var s' := Apply(s, Advance(i, choice)); RevokeInv(s.cfg, s'.shared, s'.log, s'.callers[i])
  {
    var caller := s.callers[i];
    var s' := Apply(s, Advance(i, choice));
    if && caller.job.Revoke? && caller.pc.RevokeAdd? && s'.callers[i].pc == Done(Revoked)
       && s.shared.clock < caller.pc.until {
      assert s'.log[|s.log|].Added? && s'.log[|s.log|].exp == caller.pc.until;
    } else {
      assert forall k :: 0 <= k < |s.log| ==> s'.log[k] == s.log[k];
    }
  }

  ghost predicate RevokesHold(s: State) {
    forall i :: 0 <= i < |s.callers| ==> RevokeInv(s.cfg, s.shared, s.log, s.callers[i])
  }

  lemma {:induction false} RunRevokes(s: State, run: seq<Event>)
    requires Inv(s) && RevokesHold(s) && Legal(s, run)
    ensures RevokesHold(Exec(s, run))
    decreases |run|
  {
    if run != [] {
      var e := run[0];
      var s' := Apply(s, e);
      EventKeeps(s, e);
      forall i | 0 <= i < |s'.callers|
        ensures RevokeInv(s.cfg, s'.shared, s'.log, s'.callers[i])
      {
        if e.Advance? && i == e.caller {
          OwnRevoke(s, i, e.choice);
        } else if i < |s.callers| {
          RevokeStays(s.cfg, s.shared, s.log, s'.shared, s'.log, s.callers[i]);
        }
      }
      RunRevokes(s', run[1..]);
    }
  }

  /** A revocation that reported success keeps the id on the blacklist until the expiry it was given. */
  lemma RevocationHolds(cfg: Config, clock: Time, run: seq<Event>, s: State, i: nat, until: Time)
    requires Reached(cfg, clock, run, s) && cfg.blacklistEnabled && i < |s.callers|
    requires RevokesUntil(s.callers[i].job, until) && s.callers[i].pc == Done(Revoked) && s.shared.clock < until
    ensures Live(s.shared.entries, s.callers[i].job.jti, s.shared.clock)
  {
    ReachedInv(cfg, clock, run, s);
    RunRevokes(Initial(cfg, clock), run);
    assert RevokeInv(cfg, s.shared, s.log, s.callers[i]);
    assert ListedUntil(s.shared, s.log, s.callers[i].job.jti, until);
  }
}
