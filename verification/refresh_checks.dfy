/** What the refresh and sign-out protocol refuses (auth/jwt.go): a store that cannot answer, a token that is not in
    order, and a refresh token that would sign out after it was outdated. */
module RefreshChecks {
  import opened Options
  import opened Blacklist
  import opened RefreshProtocol
  import opened RefreshProgress

  // ---------------------------------------------------------------- a store that cannot answer

  /** Where a refresh is told that a store, the signature check or the user lookup failed. */
  function OutageAt(pc: Pc): Option<Refusal> {
    match pc
    case Verify => Some(NotVerified)
    case BlRead => Some(BlacklistUnavailable)
    case FirstGeneration => Some(GenerationUnavailable)
    case FindUser => Some(UserUnavailable)
    case FinalGeneration(_) => Some(GenerationUnavailable)
    case Consume(_) => Some(BlacklistUnavailable)
    case _ => None
  }

  /** A failure ends a refresh right where it happens, and nothing is signed; a lookup that failed answers listed; a
      revocation or sign-out whose store failed does not report success, now or later. */
  lemma FailsClosed(s: State, i: nat, landed: bool)
    requires i < |s.callers| && WellPlaced(s.callers[i])
    ensures var caller, pc := s.callers[i], Apply(s, Advance(i, Fail(landed))).callers[i].pc;
      && (caller.job.Refresh? && OutageAt(caller.pc).Some? ==> pc == Done(Refused(OutageAt(caller.pc).value)))
      && (caller.job.Refresh? && caller.pc.Sign? ==> pc == Done(Burned(caller.pc.subject)))
      && (caller.job.Lookup? && caller.pc.BlRead? ==> pc == Done(Answer(true)))
      && (caller.job.Revoke? && caller.pc.RevokeAdd? ==> pc == Done(RevokeFailed))
      && (caller.job.SignOut? && caller.pc.Verify? ==> pc == Done(Refused(NotVerified)))
      && (caller.job.SignOut? && caller.pc.SoGeneration? ==> pc == Done(SignOutFailed))
      && (caller.job.SignOut? && caller.pc.SoAdd? && s.cfg.blacklistEnabled ==> pc == SoBump(false))
      && (caller.job.SignOut? && caller.pc.SoBump? && SignOutKey(caller.job.claims.uid) != "" ==>
            pc == Done(SignOutFailed))
  {
  }

  /** The sign-out whose blacklist write failed still tries the bump, and fails whatever that answers. */
  lemma FailedAddStillBumps(s: State, i: nat, choice: Choice)
    requires i < |s.callers| && WellPlaced(s.callers[i])
    requires s.callers[i].job.SignOut? && s.callers[i].pc == SoBump(false)
    ensures var t, key := Apply(s, Advance(i, choice)), SignOutKey(s.callers[i].job.claims.uid);
      && t.callers[i].pc == Done(SignOutFailed)
      && (!choice.Fail? && key != "" ==>
            CurrentGeneration(t.shared.counts, key) == CurrentGeneration(s.shared.counts, key) + 1)
  {
  }

  /** A write that reported a failure has landed or not, and nothing in between: the consume of a refresh then holds
      until the token's expiry, and the bump of a sign-out counts. */
  lemma FailedWriteLandsOrNot(s: State, i: nat, landed: bool, at: Time)
    requires i < |s.callers| && WellPlaced(s.callers[i])
    ensures !landed && !s.callers[i].pc.BlDrop? ==>
      Apply(s, Advance(i, Fail(landed))).shared == s.shared
    ensures var t, job := Apply(s, Advance(i, Fail(landed))), s.callers[i].job;
      && (landed && job.Refresh? && s.callers[i].pc.Consume? && s.shared.clock <= at < job.claims.exp.value ==>
            Live(t.shared.entries, job.claims.jti, at))
      && (landed && job.SignOut? && s.callers[i].pc.SoBump? && SignOutKey(job.claims.uid) != "" ==>
            CurrentGeneration(t.shared.counts, SignOutKey(job.claims.uid)) ==
            CurrentGeneration(s.shared.counts, SignOutKey(job.claims.uid)) + 1)
  {
  }

  /** Where a caller writes to the blacklist and where to the generations. */
  predicate WritesBlacklist(pc: Pc) {
    pc.Consume? || pc.BlDrop? || pc.RevokeAdd? || pc.SoAdd?
  }

  /** Every check comes before the writes: a step elsewhere changes neither store, so a refusal before the consume, or
      before a sign-out's first write, leaves the token as it was. */
  lemma ChecksWriteNothing(s: State, i: nat, choice: Choice)
    requires i < |s.callers| && WellPlaced(s.callers[i])
    ensures var t, pc := Apply(s, Advance(i, choice)), s.callers[i].pc;
      && (!WritesBlacklist(pc) ==> t.shared.entries == s.shared.entries)
      && (!pc.SoBump? ==> t.shared.counts == s.shared.counts)
      && t.shared.clock == s.shared.clock
  {
  }

  // ---------------------------------------------------------------- a token that is not in order

  /** What stands against the token: the first of a missing expiry, an expiry that is over, a missing id, an id on the
      blacklist, another type, and a generation behind its user's. */
  ghost function Against(s: State, claims: Claims): Option<Refusal> {
    if claims.exp.None? then Some(ClaimMissing)
    else if claims.exp.value <= s.shared.clock then Some(TokenExpired)
    else if claims.jti == "" then Some(ClaimMissing)
    else if s.cfg.blacklistEnabled && Live(s.shared.entries, claims.jti, s.shared.clock) then Some(TokenUsed)
    else if claims.tokenType != "refresh" then Some(NotARefreshToken)
    else if Outdated(s.log, RefreshKey(claims.uid), claims.generation) then Some(GenerationStale)
    else None
  }

  /** After n moves of its own the caller stands refused for this. */
  ghost predicate EndsRefused(s: State, m: nat, n: nat, why: Refusal) {
    && Legal(s, Alone(m, "", n)) && m < |Exec(s, Alone(m, "", n)).callers|
    && Exec(s, Alone(m, "", n)).callers[m].pc == Done(Refused(why))
  }

  lemma RefusedNow(s: State, m: nat, n: nat, why: Refusal)
    requires m < |s.callers| && s.callers[m].pc == Done(Refused(why)) && WellPlaced(s.callers[m])
    ensures EndsRefused(s, m, n, why)
  {
    DoneStays(s, m, n);
  }

  lemma RefusedNext(s: State, m: nat, n: nat, why: Refusal)
    requires m < |s.callers| && WellPlaced(s.callers[m]) && n > 0
    requires EndsRefused(Apply(s, Advance(m, Found(""))), m, n - 1, why)
    ensures EndsRefused(s, m, n, why)
  {
    AloneStep(s, m, n);
  }

  /** A token that is unexpired, and whose user's counter is beyond it or whose type is another. */
  predicate Unfit(sh: Shared, claims: Claims) {
    && claims.exp.Some? && sh.clock < claims.exp.value
    && (claims.tokenType != "refresh" || claims.generation < CurrentGeneration(sh.counts, RefreshKey(claims.uid)))
  }

  function UnfitFor(claims: Claims): Refusal {
    if claims.tokenType != "refresh" then NotARefreshToken else GenerationStale
  }

  lemma UnfitAtType(s: State, m: nat, n: nat)
    requires m < |s.callers| && s.callers[m].job.Refresh? && n >= 2
    requires s.callers[m].pc.TypeCheck? && Unfit(s.shared, s.callers[m].job.claims)
    ensures EndsRefused(s, m, n, UnfitFor(s.callers[m].job.claims))
  {
    var why, s1 := UnfitFor(s.callers[m].job.claims), Apply(s, Advance(m, Found("")));
    if s1.callers[m].pc.Done? {
      RefusedNow(s1, m, n - 1, why);
    } else {
      RefusedNow(Apply(s1, Advance(m, Found(""))), m, n - 2, why);
      RefusedNext(s1, m, n - 1, why);
    }
    RefusedNext(s, m, n, why);
  }

  lemma UnfitAtRecheck(s: State, m: nat, n: nat)
    requires m < |s.callers| && s.callers[m].job.Refresh? && n >= 3
    requires s.callers[m].pc.Recheck? && Unfit(s.shared, s.callers[m].job.claims)
    ensures EndsRefused(s, m, n, UnfitFor(s.callers[m].job.claims))
  {
    UnfitAtType(Apply(s, Advance(m, Found(""))), m, n - 1);
    RefusedNext(s, m, n, UnfitFor(s.callers[m].job.claims));
  }

  /** The lookup of an id that is not live ends at the second expiry check. */
  lemma UnfitAtLookup(s: State, m: nat, n: nat)
    requires m < |s.callers| && s.callers[m].job.Refresh? && n >= 6
    requires s.callers[m].pc.BlRead? && Unfit(s.shared, s.callers[m].job.claims)
    requires !Live(s.shared.entries, s.callers[m].job.claims.jti, s.shared.clock)
    ensures EndsRefused(s, m, n, UnfitFor(s.callers[m].job.claims))
  {
    var why, s1 := UnfitFor(s.callers[m].job.claims), Apply(s, Advance(m, Found("")));
    if s1.callers[m].pc.Recheck? {
      UnfitAtRecheck(s1, m, n - 1);
    } else {
      var s2 := Apply(s1, Advance(m, Found("")));
      UnfitAtRecheck(Apply(s2, Advance(m, Found(""))), m, n - 3);
      RefusedNext(s2, m, n - 2, why);
      RefusedNext(s1, m, n - 1, why);
    }
    RefusedNext(s, m, n, why);
  }

  lemma ListedAtLookup(s: State, m: nat, n: nat)
    requires m < |s.callers| && s.callers[m].job.Refresh? && s.callers[m].job.claims.exp.Some? && n >= 2
    requires s.callers[m].pc.BlRead? && Live(s.shared.entries, s.callers[m].job.claims.jti, s.shared.clock)
    ensures EndsRefused(s, m, n, TokenUsed)
  {
    var s1 := Apply(s, Advance(m, Found("")));
    RefusedNow(Apply(s1, Advance(m, Found(""))), m, n - 2, TokenUsed);
    RefusedNext(s1, m, n - 1, TokenUsed);
    RefusedNext(s, m, n, TokenUsed);
  }

  lemma BehindIffOutdated(s: State, key: string, generation: int)
    requires Inv(s) && ProgressInv(s)
    ensures generation < CurrentGeneration(s.shared.counts, key) <==> Outdated(s.log, key, generation)
  {
    if generation < CurrentGeneration(s.shared.counts, key) {
      StaleIsOutdated(s.shared, s.log, key, generation);
    } else {
      assert GenerationsHold(s.shared, s.log);
    }
  }

  /** In every reached state, a refresh that begins and is left alone with stores that answer is refused exactly for
      what stands against its token, within seven steps, and otherwise mints. */
  lemma RefreshAnswers(cfg: Config, clock: Time, run: seq<Event>, s: State, m: nat)
    requires Reached(cfg, clock, run, s) && m < |s.callers| && s.callers[m].job.Refresh? && s.callers[m].pc.Verify?
    ensures var against := Against(s, s.callers[m].job.claims);
      && (against.Some? ==> EndsRefused(s, m, 7, against.value))
      && (against.None? <==> OnItsWay(s, m))
  {
    ReachedProgress(cfg, clock, run, s);
    var claims, s1 := s.callers[m].job.claims, Apply(s, Advance(m, Found("")));
    BehindIffOutdated(s, RefreshKey(claims.uid), claims.generation);
    var against := Against(s, claims);
    if against.Some? {
      if s1.callers[m].pc.Done? {
        RefusedNow(s1, m, 6, against.value);
      } else if s1.callers[m].pc.TypeCheck? {
        UnfitAtType(s1, m, 6);
      } else if Live(s.shared.entries, claims.jti, s.shared.clock) {
        ListedAtLookup(s1, m, 6);
      } else {
        UnfitAtLookup(s1, m, 6);
      }
      RefusedNext(s, m, 7, against.value);
    }
  }

  // ---------------------------------------------------------------- an outdated sign-out, and tokens without an id

  /** The token was not outdated when the caller began. */
  ghost predicate NotOutdatedAtStart(log: seq<Entry>, start: nat, claims: Claims)
    requires start <= |log|
  {
    !Outdated(log[..start], SignOutKey(claims.uid), claims.generation)
  }

  /** A caller past the first checks has a token with an id; a sign-out with a refresh token, past its generation check,
      one that was not outdated when it began. */
  ghost predicate CheckedInv(log: seq<Entry>, caller: Caller) {
    && caller.start <= |log|
    && (caller.job.Refresh? || caller.job.SignOut? ==>
          caller.pc.Verify? || (caller.pc.Done? && caller.pc.outcome.Refused?) || caller.job.claims.jti != "")
    && (caller.job.SignOut? && caller.job.claims.tokenType == "refresh" && PastCheck(caller.pc) ==>
          NotOutdatedAtStart(log, caller.start, caller.job.claims))
    && (caller.job.SignOut? && caller.pc.SoGeneration? ==> caller.job.claims.tokenType == "refresh")
  }

  predicate PastCheck(pc: Pc) {
    pc.SoAdd? || pc.SoBump? || (pc.Done? && pc.outcome.SignedOut?)
  }

  lemma CheckedStays(log: seq<Entry>, log': seq<Entry>, caller: Caller)
    requires CheckedInv(log, caller) && log <= log'
    ensures CheckedInv(log', caller)
  {
    assert log'[..caller.start] == log[..caller.start];
  }

  lemma OwnChecked(s: State, i: nat, choice: Choice)
    requires Inv(s) && i < |s.callers| && WellPlaced(s.callers[i]) && CheckedInv(s.log, s.callers[i])
    ensures CheckedInv(s.log, Apply(s, Advance(i, choice)).callers[i])
  {
    assert CallerInv(s.cfg, s.shared, s.log, i, s.callers[i]) && GenerationsHold(s.shared, s.log);
  }

  ghost predicate AllChecked(s: State) {
    forall i :: 0 <= i < |s.callers| ==> CheckedInv(s.log, s.callers[i])
  }

  lemma {:induction false} RunChecked(s: State, run: seq<Event>)
    requires Inv(s) && AllChecked(s) && Legal(s, run)
    ensures AllChecked(Exec(s, run))
    decreases |run|
  {
    if run != [] {
      var e, s' := run[0], Apply(s, run[0]);
      EventKeeps(s, e);
      forall i | 0 <= i < |s'.callers|
        ensures CheckedInv(s'.log, s'.callers[i])
      {
        if e.Advance? && i == e.caller {
          OwnChecked(s, i, e.choice);
          CheckedStays(s.log, s'.log, s'.callers[i]);
        } else if i < |s.callers| {
          CheckedStays(s.log, s'.log, s.callers[i]);
        }
      }
      RunChecked(s', run[1..]);
    }
  }

  /** A refresh token from before a bump cannot sign anybody out: in every run, a sign-out with a refresh token that
      reported success began before every bump that is past its token. And a token without an id neither mints nor
      signs out. */
  lemma OutdatedSignsNobodyOut(cfg: Config, clock: Time, run: seq<Event>, s: State, i: nat)
    requires Reached(cfg, clock, run, s) && i < |s.callers| && s.callers[i].pc.Done?
    ensures s.callers[i].start <= |s.log|
    ensures var job, outcome := s.callers[i].job, s.callers[i].pc.outcome;
      && (outcome.SignedOut? && job.SignOut? && job.claims.tokenType == "refresh" ==>
            !Outdated(s.log[..s.callers[i].start], SignOutKey(job.claims.uid), job.claims.generation))
      && (outcome.SignedOut? && job.SignOut? ==> job.claims.jti != "")
      && (outcome.Minted? && job.Refresh? ==> job.claims.jti != "")
  {
    ReachedInv(cfg, clock, run, s);
    RunChecked(Initial(cfg, clock), run);
    assert CheckedInv(s.log, s.callers[i]);
  }

  // ---------------------------------------------------------------- a revocation without an expiry

  /** A revocation left alone succeeds and puts the id on the blacklist until the expiry it was given, and without one,
      or with the zero time, for the access tokens' time to live. */
  lemma RevokeTakesEffect(s: State, m: nat, at: Time)
    requires m < |s.callers| && s.callers[m].job.Revoke? && s.callers[m].pc.RevokeExpiry? && s.cfg.blacklistEnabled
    requires var expiry := s.callers[m].job.expiry;
      s.shared.clock <= at < if expiry.Some? && expiry.value != 0 then expiry.value else s.shared.clock + s.cfg.ttl
    ensures Legal(s, Alone(m, "", 2)) && m < |Exec(s, Alone(m, "", 2)).callers|
    ensures var t := Exec(s, Alone(m, "", 2));
      t.callers[m].pc == Done(Revoked) && Live(t.shared.entries, s.callers[m].job.jti, at)
  {
    var s1 := Apply(s, Advance(m, Found("")));
    var s2 := Apply(s1, Advance(m, Found("")));
    DoneStays(s2, m, 0);
    AloneStep(s1, m, 1);
    AloneStep(s, m, 2);
    AddMeaning(s1.shared.entries, s.callers[m].job.jti, s1.callers[m].pc.until, s1.shared.clock);
  }

  // ---------------------------------------------------------------- an issue

  /** A token is issued at its user's generation, so that bumps so far do not count against it; one issued while the
      generation store was down is at generation 0, which any bump outdates. */
  lemma IssuedIsCurrent(cfg: Config, clock: Time, run: seq<Event>, s: State, claims: Claims, key: string, down: bool)
    requires Reached(cfg, clock, run, s) && Enabled(s, Issue(claims, key, down))
    ensures !down ==> !Outdated(s.log, key, claims.generation)
    ensures !down && claims.generation > 0 ==> BumpedPast(s.log, key, claims.generation - 1)
    ensures down ==> claims.generation == 0
  {
    ReachedProgress(cfg, clock, run, s);
    BehindIffOutdated(s, key, claims.generation);
    BehindIffOutdated(s, key, claims.generation - 1);
  }

  // ---------------------------------------------------------------- a disabled blacklist

  ghost predicate Unlisted(s: State) {
    !s.cfg.blacklistEnabled ==>
      s.shared.entries == map[]
      && forall i :: 0 <= i < |s.callers| ==> !s.callers[i].pc.Consume? && !s.callers[i].pc.RevokeAdd?
  }

  lemma UnlistedKept(s: State, e: Event)
    requires Unlisted(s) && Enabled(s, e)
    ensures Unlisted(Apply(s, e)) && Apply(s, e).cfg == s.cfg
  {
  }

  lemma {:induction false} RunUnlisted(s: State, run: seq<Event>)
    requires Unlisted(s) && Legal(s, run)
    ensures Unlisted(Exec(s, run)) && Exec(s, run).cfg == s.cfg
    decreases |run|
  {
    if run != [] {
      UnlistedKept(s, run[0]);
      RunUnlisted(Apply(s, run[0]), run[1..]);
    }
  }

  /** With the blacklist disabled no run writes to it, and a revocation is done at its first step. */
  lemma DisabledWritesNothing(cfg: Config, clock: Time, run: seq<Event>, s: State, i: nat, choice: Choice)
    requires Reached(cfg, clock, run, s) && !cfg.blacklistEnabled
    ensures s.shared.entries == map[]
    ensures i < |s.callers| && s.callers[i].job.Revoke? && s.callers[i].pc.RevokeExpiry? ==>
      Apply(s, Advance(i, choice)).callers[i].pc == Done(Revoked)
  {
    RunUnlisted(Initial(cfg, clock), run);
  }

  /** The history a caller carries is the true one: it began when it was spawned, and its lookup when it read. */
  lemma HistoryIsTrue(s: State, job: Job, i: nat, choice: Choice)
    ensures Apply(s, Spawn(job)).callers[|s.callers|].start == |s.log|
    ensures i < |s.callers| && WellPlaced(s.callers[i]) ==>
      var caller, moved := s.callers[i], Apply(s, Advance(i, choice)).callers[i];
      moved.start == caller.start && moved.looked == if caller.pc.BlRead? then |s.log| else caller.looked
  {
  }
}
