/** The refresh, revocation and sign-out protocol of auth/jwt.go as a step system. Any number of callers run
    RefreshToken, IsBlacklisted, RevokeToken and SignOutToken against one blacklist and one generation store;
    each step is one lock section or one clock reading, and any caller may move next. The clock never goes
    back. Every store write and every final decision is recorded in a log, so that "before" and "after" in
    the theorems are positions in that log. */
module RefreshProtocol {
  import opened Options
  import opened Blacklist

  /** The uid claim as decoded from a token: absent, a string, or another value with its printed form. */
  datatype Uid = NoUid | TextUid(text: string) | OtherUid(printed: string)

  /** The user key RefreshToken checks the generation of. */
  function RefreshKey(uid: Uid): string {
    match uid
    case NoUid => "<nil>"
    case TextUid(text) => text
    case OtherUid(printed) => printed
  }

  /** The user key SignOutToken bumps. */
  function SignOutKey(uid: Uid): string {
    match uid
    case NoUid => ""
    case TextUid(text) => text
    case OtherUid(printed) => printed
  }

  datatype Claims = Claims(jti: string, exp: Option<Time>, uid: Uid, tokenType: string, generation: int)

  datatype Job =
    | Refresh(claims: Claims)
    | SignOut(claims: Claims)
    | Lookup(jti: string)
    | Revoke(jti: string, expiry: Option<Time>)
  {
    function Jti(): string {
      match this
      case Refresh(claims) => claims.jti
      case SignOut(claims) => claims.jti
      case Lookup(jti) => jti
      case Revoke(jti, _) => jti
    }
  }

  datatype Refusal =
    | NotVerified | ClaimMissing | TokenExpired | TokenUsed | NotARefreshToken
    | GenerationStale | GenerationUnavailable | UserUnavailable | BlacklistUnavailable

  datatype Outcome =
    | Refused(why: Refusal)
    | Minted(subject: string)
    | Burned(subject: string)
    | Answer(listed: bool)
    | Revoked
    | RevokeFailed
    | SignedOut(bump: Option<nat>)
    | SignOutFailed

  /** Where a caller is. BlRead, BlClock and BlDrop are the two lock sections of IsBlacklisted and the clock
      reading between them. */
  datatype Pc =
    | Verify
    | BlRead | BlClock(read: Time) | BlDrop(read: Time)
    | Recheck | TypeCheck | FirstGeneration | FindUser
    | FinalGeneration(subject: string) | FinalExpiry(subject: string)
    | Consume(subject: string) | Unconsumed | Sign(subject: string)
    | RevokeExpiry | RevokeAdd(until: Time)
    | SoGeneration | SoAdd | SoBump(added: bool)
    | Done(outcome: Outcome)

  /** A caller: its job, the length of the log when it began and when its lookup in the blacklist did, and where it
      is. */
  datatype Caller = Caller(job: Job, start: nat, looked: nat, pc: Pc)

  /** How one Add ended: it returned true, it returned false, or it wrote and then failed. */
  datatype AddResult = Fresh | Extended | Lost

  datatype Entry =
    | Issued(claims: Claims, key: string)
    | Bumped(key: string, generation: nat)
    | Added(jti: string, exp: Time, at: Time, result: AddResult, consumer: Option<nat>)
    | Decided(caller: nat, claims: Claims, subject: string, current: nat)
    | OnTime(caller: nat, claims: Claims, at: Time)

  datatype Config = Config(blacklistEnabled: bool, ttl: nat)

  datatype Shared = Shared(clock: Time, entries: Entries, counts: Generations)

  datatype State = State(cfg: Config, shared: Shared, callers: seq<Caller>, log: seq<Entry>)

  /** What the environment decides at a step: it succeeds, it fails (with or without the write landing), or
      the user store found a user whose identity snapshot has this subject. */
  datatype Choice = Ok | Fail(landed: bool) | Found(subject: string)

  datatype Event =
    | Tick(elapsed: nat)
    | Cleanup
    | Issue(claims: Claims, key: string, storeFailed: bool)
    | Bump(key: string)
    | Spawn(job: Job)
    | Advance(caller: nat, choice: Choice)

  // ---------------------------------------------------------------- one step of one caller

  /** What one step does to the shared state. */
  datatype Op =
    | Look
    | AddUntil(jti: string, until: Time, result: AddResult, consumer: Option<nat>)
    | DropRead(jti: string, read: Time)
    | BumpUser(key: string)
    | Decide(caller: nat, claims: Claims, subject: string, current: nat)
    | JudgeExpiry(caller: nat, claims: Claims)

  function OpShared(sh: Shared, op: Op): Shared {
    match op
    case Look => sh
    case AddUntil(jti, until, _, _) => sh.(entries := AfterAdd(sh.entries, jti, until, sh.clock))
    case DropRead(jti, read) => sh.(entries := AfterDrop(sh.entries, jti, read))
    case BumpUser(key) => sh.(counts := AfterBump(sh.counts, key))
    case Decide(_, _, _, _) => sh
    case JudgeExpiry(_, _) => sh
  }

  /** What the log says of it. An Add whose deadline has passed wrote nothing. */
  function OpRecord(sh: Shared, op: Op): seq<Entry> {
    match op
    case Look => []
    case AddUntil(jti, until, result, consumer) =>
      if sh.clock < until then [Added(jti, until, sh.clock, result, consumer)] else []
    case DropRead(_, _) => []
    case BumpUser(key) => if key == "" then [] else [Bumped(key, CurrentGeneration(sh.counts, key) + 1)]
    case Decide(caller, claims, subject, current) => [Decided(caller, claims, subject, current)]
    case JudgeExpiry(caller, claims) => [OnTime(caller, claims, sh.clock)]
  }

  datatype Step = Step(pc: Pc, op: Op)

  function Refuse(why: Refusal): Step {
    Step(Done(Refused(why)), Look)
  }

  function BlacklistExpiry(cfg: Config, expiresAt: Time, clock: Time): Time {
    if expiresAt != 0 then expiresAt else clock + cfg.ttl
  }

  /** One Add on the store: where the caller goes when it answered true, false, or failed. */
  function StepAdd(sh: Shared, jti: string, until: Time, consumer: Option<nat>, choice: Choice,
                   onTrue: Pc, onFalse: Pc, onFail: Pc): Step
  {
    if choice.Fail? then Step(onFail, if choice.landed then AddUntil(jti, until, Lost, None) else Look)
    else if AddConsumes(sh.entries, jti, until, sh.clock) then Step(onTrue, AddUntil(jti, until, Fresh, consumer))
    else Step(onFalse, AddUntil(jti, until, Extended, None))
  }

  function StepVerify(cfg: Config, sh: Shared, job: Job, choice: Choice): Step
    requires job.Refresh? || job.SignOut?
  {
    var claims := job.claims;
    if choice.Fail? then Refuse(NotVerified)
    else if claims.exp.None? then Refuse(ClaimMissing)
    else if claims.exp.value <= sh.clock then Refuse(TokenExpired)
    else if claims.jti == "" then Refuse(ClaimMissing)
    else if job.SignOut? then Step(if claims.tokenType == "refresh" then SoGeneration else SoAdd, Look)
    else Step(if cfg.blacklistEnabled then BlRead else TypeCheck, Look)
  }

  /** Where IsBlacklisted's answer takes the caller. */
  function Answered(job: Job, listed: bool): Pc {
    if job.Refresh? then (if listed then Done(Refused(TokenUsed)) else Recheck) else Done(Answer(listed))
  }

  function StepLookup(sh: Shared, job: Job, pc: Pc, choice: Choice): Step
    requires InLookup(pc)
  {
    match pc
    case BlRead =>
      if choice.Fail? then Step(if job.Refresh? then Done(Refused(BlacklistUnavailable)) else Done(Answer(true)), Look)
      else if job.Jti() in sh.entries then Step(BlClock(sh.entries[job.Jti()]), Look)
      else Step(Answered(job, false), Look)
    case BlClock(read) => Step(if read < sh.clock then BlDrop(read) else Answered(job, true), Look)
    case BlDrop(read) => Step(Answered(job, false), DropRead(job.Jti(), read))
  }

  function StepGeneration(sh: Shared, claims: Claims, choice: Choice, onPass: Step): Step {
    if choice.Fail? then Refuse(GenerationUnavailable)
    else if claims.generation < CurrentGeneration(sh.counts, RefreshKey(claims.uid)) then Refuse(GenerationStale)
    else onPass
  }

  /** RefreshToken past ValidateToken. */
  function StepRefresh(cfg: Config, sh: Shared, me: nat, claims: Claims, pc: Pc, choice: Choice): Step
    requires claims.exp.Some?
  {
    var exp := claims.exp.value;
    match pc
    case Recheck => if exp <= sh.clock then Refuse(TokenExpired) else Step(TypeCheck, Look)
    case TypeCheck =>
      if claims.tokenType != "refresh" then Refuse(NotARefreshToken) else Step(FirstGeneration, Look)
    case FirstGeneration => StepGeneration(sh, claims, choice, Step(FindUser, Look))
    case FindUser =>
      if choice.Found? then Step(FinalGeneration(choice.subject), Look) else Refuse(UserUnavailable)
    case FinalGeneration(subject) =>
      StepGeneration(sh, claims, choice,
                     Step(FinalExpiry(subject),
                          Decide(me, claims, subject, CurrentGeneration(sh.counts, RefreshKey(claims.uid)))))
    case FinalExpiry(subject) =>
      if exp <= sh.clock then Refuse(TokenExpired)
      else Step(if cfg.blacklistEnabled then Consume(subject) else Sign(subject), JudgeExpiry(me, claims))
    case Consume(subject) =>
      StepAdd(sh, claims.jti, BlacklistExpiry(cfg, exp, sh.clock), Some(me), choice,
              Sign(subject), Unconsumed, Done(Refused(BlacklistUnavailable)))
    case Unconsumed => Refuse(if exp <= sh.clock then TokenExpired else TokenUsed)
    case Sign(subject) => Step(Done(if choice.Fail? then Burned(subject) else Minted(subject)), Look)
    case _ => Step(pc, Look)
  }

  function StepRevoke(cfg: Config, sh: Shared, job: Job, pc: Pc, choice: Choice): Step
    requires job.Revoke?
  {
    match pc
    case RevokeExpiry =>
      if !cfg.blacklistEnabled then Step(Done(Revoked), Look)
      else Step(RevokeAdd(BlacklistExpiry(cfg, if job.expiry.Some? then job.expiry.value else 0, sh.clock)), Look)
    case RevokeAdd(until) =>
      StepAdd(sh, job.jti, until, None, choice, Done(Revoked), Done(Revoked), Done(RevokeFailed))
    case _ => Step(pc, Look)
  }

  /** SignOutToken past verifyToken. logged is the length of the log, the position its bump gets. */
  function StepSignOut(cfg: Config, sh: Shared, logged: nat, claims: Claims, pc: Pc, choice: Choice): Step
    requires claims.exp.Some?
  {
    var key := SignOutKey(claims.uid);
    match pc
    case SoGeneration =>
      if choice.Fail? then Step(Done(SignOutFailed), Look)
      else if claims.generation < CurrentGeneration(sh.counts, key) then Refuse(GenerationStale)
      else Step(SoAdd, Look)
    case SoAdd =>
      if !cfg.blacklistEnabled then Step(SoBump(true), Look)
      else StepAdd(sh, claims.jti, BlacklistExpiry(cfg, claims.exp.value, sh.clock), None, choice,
                   SoBump(true), SoBump(true), SoBump(false))
    case SoBump(added) =>
      if key == "" then Step(Done(if added then SignedOut(None) else SignOutFailed), Look)
      else if choice.Fail? then Step(Done(SignOutFailed), if choice.landed then BumpUser(key) else Look)
      else Step(Done(if added then SignedOut(Some(logged)) else SignOutFailed), BumpUser(key))
    case _ => Step(pc, Look)
  }

  predicate InLookup(pc: Pc) {
    pc.BlRead? || pc.BlClock? || pc.BlDrop?
  }

  predicate PastVerify(pc: Pc) {
    !pc.Verify? && !pc.Done?
  }

  /** A caller past the token checks holds a token with an expiry. */
  predicate WellPlaced(caller: Caller) {
    match caller.job
    case Refresh(claims) => PastVerify(caller.pc) ==> claims.exp.Some?
    case SignOut(claims) => PastVerify(caller.pc) ==> claims.exp.Some?
    case Lookup(_) => !caller.pc.Verify?
    case Revoke(_, _) => !caller.pc.Verify?
  }

  function StepCaller(cfg: Config, sh: Shared, logged: nat, me: nat, caller: Caller, choice: Choice): Step
    requires WellPlaced(caller)
  {
    var pc := caller.pc;
    if pc.Done? then Step(pc, Look)
    else if pc.Verify? then StepVerify(cfg, sh, caller.job, choice)
    else if InLookup(pc) then StepLookup(sh, caller.job, pc, choice)
    else match caller.job
      case Refresh(claims) => StepRefresh(cfg, sh, me, claims, pc, choice)
      case SignOut(claims) => StepSignOut(cfg, sh, logged, claims, pc, choice)
      case Revoke(_, _) => StepRevoke(cfg, sh, caller.job, pc, choice)
      case Lookup(_) => Step(pc, Look)
  }

  /** The caller after its step; logged is the length of the log before it. */
  function Moved(caller: Caller, logged: nat, pc: Pc): Caller {
    caller.(pc := pc, looked := if caller.pc.BlRead? then logged else caller.looked)
  }

  // ---------------------------------------------------------------- runs

  function FirstPc(cfg: Config, job: Job): Pc {
    match job
    case Refresh(_) => Verify
    case SignOut(_) => Verify
    case Lookup(_) => if cfg.blacklistEnabled then BlRead else Done(Answer(false))
    case Revoke(_, _) => RevokeExpiry
  }

  predicate Enabled(s: State, e: Event) {
    match e
    case Issue(claims, key, storeFailed) =>
      claims.generation == (if storeFailed then 0 else CurrentGeneration(s.shared.counts, key))
    case Advance(caller, _) => caller < |s.callers| && WellPlaced(s.callers[caller])
    case _ => true
  }

  function Apply(s: State, e: Event): State
    requires Enabled(s, e)
  {
    match e
    case Tick(elapsed) => s.(shared := s.shared.(clock := s.shared.clock + elapsed))
    case Cleanup => s.(shared := s.shared.(entries := AfterCleanup(s.shared.entries, s.shared.clock)))
    case Issue(claims, key, _) => s.(log := s.log + [Issued(claims, key)])
    case Bump(key) =>
      s.(shared := OpShared(s.shared, BumpUser(key)), log := s.log + OpRecord(s.shared, BumpUser(key)))
    case Spawn(job) => s.(callers := s.callers + [Caller(job, |s.log|, |s.log|, FirstPc(s.cfg, job))])
    case Advance(i, choice) =>
      var step := StepCaller(s.cfg, s.shared, |s.log|, i, s.callers[i], choice);
      s.(shared := OpShared(s.shared, step.op), log := s.log + OpRecord(s.shared, step.op),
         callers := s.callers[i := Moved(s.callers[i], |s.log|, step.pc)])
  }

  /** The events can happen, one after the other, from s. */
  predicate Legal(s: State, run: seq<Event>)
    decreases |run|
  {
    run == [] || (Enabled(s, run[0]) && Legal(Apply(s, run[0]), run[1..]))
  }

  function Exec(s: State, run: seq<Event>): State
    requires Legal(s, run)
    decreases |run|
  {
    if run == [] then s else Exec(Apply(s, run[0]), run[1..])
  }

  function Initial(cfg: Config, clock: Time): State {
    State(cfg, Shared(clock, map[], map[]), [], [])
  }

  // ---------------------------------------------------------------- what every step keeps

  /** Some Add put jti on the blacklist: it answered true, or it wrote and then failed. */
  ghost predicate Spent(log: seq<Entry>, jti: string) {
    exists i :: 0 <= i < |log| && log[i].Added? && log[i].jti == jti && !log[i].result.Extended?
  }

  /** Every Add of jti recorded before position upTo has lapsed at clock. */
  ghost predicate Lapsed(log: seq<Entry>, upTo: nat, jti: string, clock: Time) {
    forall i :: 0 <= i < upTo && i < |log| && log[i].Added? && log[i].jti == jti ==> log[i].exp < clock
  }

  /** Every Add of jti recorded before position upTo is covered by an entry read as read, or has lapsed. */
  ghost predicate Covered(log: seq<Entry>, upTo: nat, jti: string, read: Time, clock: Time) {
    forall i | 0 <= i < upTo && i < |log| && log[i].Added? && log[i].jti == jti ::
      log[i].exp <= read || log[i].exp < clock
  }

  /** An Add holds until its deadline. */
  ghost predicate AddsHold(sh: Shared, log: seq<Entry>) {
    forall i :: 0 <= i < |log| && log[i].Added? ==>
      log[i].at < log[i].exp && log[i].at <= sh.clock
      && (log[i].exp < sh.clock || (log[i].jti in sh.entries && log[i].exp <= sh.entries[log[i].jti]))
  }

  ghost predicate EntriesExplained(sh: Shared, log: seq<Entry>) {
    forall jti :: jti in sh.entries ==> Spent(log, jti)
  }

  /** An Add that answered true came after every earlier Add of the id had lapsed. */
  ghost predicate FreshAfterLapse(log: seq<Entry>) {
    forall i, j | 0 <= i < j < |log| && log[i].Added? && log[j].Added? ::
      log[j].result.Fresh? && log[i].jti == log[j].jti ==> log[i].exp < log[j].at
  }

  ghost predicate GenerationsHold(sh: Shared, log: seq<Entry>) {
    && (forall i :: 0 <= i < |log| && log[i].Bumped? ==>
          log[i].key != "" && log[i].generation <= CurrentGeneration(sh.counts, log[i].key))
    && (forall i :: 0 <= i < |log| && log[i].Issued? ==>
          log[i].claims.generation <= CurrentGeneration(sh.counts, log[i].key))
  }

  /** A bump makes every token issued before it older than the bumped generation. */
  ghost predicate BumpsOutdate(log: seq<Entry>) {
    forall i, j :: 0 <= i < j < |log| && log[i].Issued? && log[j].Bumped? && log[i].key == log[j].key ==>
      log[i].claims.generation < log[j].generation
  }

  /** A final decision saw every bump before it, and passed. */
  ghost predicate DecisionsCurrent(log: seq<Entry>) {
    forall j, k | 0 <= j < k < |log| && log[k].Decided? && log[j].Bumped? ::
      log[j].key == RefreshKey(log[k].claims.uid) ==> log[j].generation <= log[k].claims.generation
  }

  ghost predicate SharedInv(sh: Shared, log: seq<Entry>) {
    AddsHold(sh, log) && EntriesExplained(sh, log) && FreshAfterLapse(log)
    && GenerationsHold(sh, log) && BumpsOutdate(log) && DecisionsCurrent(log)
  }

  /** Caller me passed the final generation check for claims, with subject as its identity snapshot. */
  ghost predicate HasDecided(log: seq<Entry>, me: nat, claims: Claims, subject: string) {
    exists k :: 0 <= k < |log| && log[k].Decided? && log[k].caller == me && log[k].claims == claims
                && log[k].subject == subject
  }

  /** Caller me judged the expiry after that check, and the token had not expired. */
  ghost predicate HasJudged(log: seq<Entry>, me: nat, claims: Claims, subject: string) {
    claims.exp.Some?
    && (exists k, l :: 0 <= k < l < |log| && log[k].Decided? && log[k].caller == me && log[k].claims == claims
                       && log[k].subject == subject
                       && log[l].OnTime? && log[l].caller == me && log[l].claims == claims
                       && log[l].at < claims.exp.value)
  }

  ghost predicate HasConsumed(log: seq<Entry>, me: nat, claims: Claims) {
    claims.exp.Some?
    && (exists i :: 0 <= i < |log| && log[i].Added? && log[i].result.Fresh? && log[i].consumer == Some(me)
                    && log[i].jti == claims.jti && log[i].exp == claims.exp.value)
  }

  /** The caller reached the signing step. */
  predicate ReachedSigning(pc: Pc) {
    pc.Sign? || (pc.Done? && (pc.outcome.Minted? || pc.outcome.Burned?))
  }

  /** The subject a caller at or past the signing step signs for. */
  function SubjectOf(pc: Pc): string
    requires ReachedSigning(pc)
  {
    if pc.Sign? then pc.subject else pc.outcome.subject
  }

  ghost predicate RefreshInv(cfg: Config, sh: Shared, log: seq<Entry>, me: nat, claims: Claims, pc: Pc) {
    && (PastVerify(pc) ==> claims.exp.Some? && 0 < claims.exp.value)
    && (pc.FirstGeneration? || pc.FindUser? || pc.FinalGeneration? ==> claims.tokenType == "refresh")
    && (pc.FinalExpiry? || pc.Consume? || ReachedSigning(pc) ==> claims.tokenType == "refresh")
    && (pc.FinalExpiry? ==> HasDecided(log, me, claims, pc.subject))
    && (pc.Consume? ==> HasJudged(log, me, claims, pc.subject))
    && (ReachedSigning(pc) ==> HasJudged(log, me, claims, SubjectOf(pc)))
    && (ReachedSigning(pc) && cfg.blacklistEnabled ==> HasConsumed(log, me, claims))
    && (pc.Unconsumed? ==> Spent(log, claims.jti) || claims.exp.value <= sh.clock)
    && (pc == Done(Refused(TokenUsed)) ==> Spent(log, claims.jti))
  }

  ghost predicate LookupInv(sh: Shared, log: seq<Entry>, caller: Caller) {
    var jti := caller.job.Jti();
    && (caller.pc.BlClock? ==> Covered(log, caller.looked, jti, caller.pc.read, sh.clock) && Spent(log, jti))
    && (caller.pc.BlDrop? ==> caller.pc.read < sh.clock && Lapsed(log, caller.looked, jti, sh.clock))
    && ((caller.pc == Done(Answer(false)) && caller.job.Lookup?) || (caller.pc.Recheck? && caller.job.Refresh?) ==>
          Lapsed(log, caller.looked, jti, sh.clock))
  }

  ghost predicate OnBlacklistFrom(sh: Shared, log: seq<Entry>, claims: Claims) {
    claims.exp.Some?
    && (claims.exp.value <= sh.clock
        || exists i :: 0 <= i < |log| && log[i].Added? && log[i].jti == claims.jti && log[i].exp == claims.exp.value)
  }

  ghost predicate SignOutInv(cfg: Config, sh: Shared, log: seq<Entry>, start: nat, claims: Claims, pc: Pc) {
    && (PastVerify(pc) ==> claims.exp.Some? && 0 < claims.exp.value)
    && ((pc == SoBump(true) || (pc.Done? && pc.outcome.SignedOut?)) && cfg.blacklistEnabled ==>
          OnBlacklistFrom(sh, log, claims))
    && (pc.Done? && pc.outcome.SignedOut? ==>
          match pc.outcome.bump
          case None => SignOutKey(claims.uid) == ""
          case Some(j) => start <= j < |log| && log[j].Bumped? && log[j].key == SignOutKey(claims.uid))
  }

  ghost predicate CallerInv(cfg: Config, sh: Shared, log: seq<Entry>, me: nat, caller: Caller) {
    && WellPlaced(caller)
    && caller.start <= caller.looked <= |log|
    && (InLookup(caller.pc) ==> cfg.blacklistEnabled)
    && (cfg.blacklistEnabled ==> LookupInv(sh, log, caller))
    && (caller.job.Refresh? ==> RefreshInv(cfg, sh, log, me, caller.job.claims, caller.pc))
    && (caller.job.SignOut? ==> SignOutInv(cfg, sh, log, caller.start, caller.job.claims, caller.pc))
  }

  /** A recorded consume was made by a caller that went on to the signing step. */
  ghost predicate ConsumersSign(s: State) {
    forall k :: 0 <= k < |s.log| && s.log[k].Added? && s.log[k].consumer.Some? ==>
      var i := s.log[k].consumer.value;
      i < |s.callers| && s.callers[i].job.Refresh? && s.callers[i].job.claims.jti == s.log[k].jti
      && ReachedSigning(s.callers[i].pc)
  }

  ghost predicate Inv(s: State) {
    && SharedInv(s.shared, s.log)
    && ConsumersSign(s)
    && (forall i :: 0 <= i < |s.callers| ==> CallerInv(s.cfg, s.shared, s.log, i, s.callers[i]))
  }

  /** How the shared state may move under a caller: the clock and the generations grow, the log gets longer,
      and no entry still live is dropped or shortened. */
  ghost predicate Moves(sh: Shared, log: seq<Entry>, sh': Shared, log': seq<Entry>) {
    && sh.clock <= sh'.clock
    && Grows(sh.counts, sh'.counts)
    && KeepsLive(sh.entries, sh'.entries, sh'.clock)
    && log <= log'
  }

  lemma SpentStays(log: seq<Entry>, log': seq<Entry>, jti: string)
    requires log <= log' && Spent(log, jti)
    ensures Spent(log', jti)
  {
    var i :| 0 <= i < |log| && log[i].Added? && log[i].jti == jti && !log[i].result.Extended?;
    assert log'[i] == log[i];
  }

  lemma HistoryStays(log: seq<Entry>, log': seq<Entry>, me: nat, claims: Claims, subject: string)
    requires log <= log'
    ensures HasDecided(log, me, claims, subject) ==> HasDecided(log', me, claims, subject)
    ensures HasJudged(log, me, claims, subject) ==> HasJudged(log', me, claims, subject)
  {
    assert forall i :: 0 <= i < |log| ==> log'[i] == log[i];
  }

  lemma ConsumedStays(log: seq<Entry>, log': seq<Entry>, me: nat, claims: Claims)
    requires log <= log' && HasConsumed(log, me, claims)
    ensures HasConsumed(log', me, claims)
  {
    assert forall i :: 0 <= i < |log| ==> log'[i] == log[i];
  }

  lemma OnBlacklistStays(sh: Shared, log: seq<Entry>, sh': Shared, log': seq<Entry>, claims: Claims)
    requires sh.clock <= sh'.clock && log <= log' && OnBlacklistFrom(sh, log, claims)
    ensures OnBlacklistFrom(sh', log', claims)
  {
    if sh.clock < claims.exp.value {
      var i :| 0 <= i < |log| && log[i].Added? && log[i].jti == claims.jti && log[i].exp == claims.exp.value;
      assert log'[i] == log[i];
    }
  }

  /** What a caller relies on survives every move of the others. */
  lemma CallerStays(cfg: Config, sh: Shared, log: seq<Entry>, sh': Shared, log': seq<Entry>, me: nat, caller: Caller)
    requires CallerInv(cfg, sh, log, me, caller)
    requires Moves(sh, log, sh', log')
    ensures CallerInv(cfg, sh', log', me, caller)
  {
    var jti := caller.job.Jti();
    if Spent(log, jti) { SpentStays(log, log', jti); }
    assert forall i :: 0 <= i < |log| ==> log'[i] == log[i];
    if caller.job.Refresh? {
      var pc := caller.pc;
      if ReachedSigning(pc) {
        HistoryStays(log, log', me, caller.job.claims, SubjectOf(pc));
        if cfg.blacklistEnabled { ConsumedStays(log, log', me, caller.job.claims); }
      } else if pc.FinalExpiry? || pc.Consume? {
        HistoryStays(log, log', me, caller.job.claims, pc.subject);
      }
    }
    if caller.job.SignOut? && OnBlacklistFrom(sh, log, caller.job.claims) {
      OnBlacklistStays(sh, log, sh', log', caller.job.claims);
    }
  }

  /** op is one the protocol performs in sh. */
  ghost predicate Fits(sh: Shared, op: Op) {
    match op
    case AddUntil(jti, until, result, _) =>
      (result.Fresh? ==> AddConsumes(sh.entries, jti, until, sh.clock))
      && (result.Extended? ==> !AddConsumes(sh.entries, jti, until, sh.clock))
    case DropRead(_, read) => read < sh.clock
    case Decide(_, claims, _, current) =>
      current == CurrentGeneration(sh.counts, RefreshKey(claims.uid)) && current <= claims.generation
    case _ => true
  }

  /** An Add changes nothing the generation part says. */
  lemma AddRecordKeeps(sh: Shared, log: seq<Entry>, entries: Entries, record: seq<Entry>)
    requires GenerationsHold(sh, log) && BumpsOutdate(log) && DecisionsCurrent(log)
    requires record == [] || (|record| == 1 && record[0].Added?)
    ensures GenerationsHold(sh.(entries := entries), log + record)
    ensures BumpsOutdate(log + record) && DecisionsCurrent(log + record)
  {
    assert forall i :: 0 <= i < |log| ==> (log + record)[i] == log[i];
  }

  lemma AddEntriesExplained(sh: Shared, log: seq<Entry>, op: Op)
    requires EntriesExplained(sh, log) && op.AddUntil? && Fits(sh, op)
    ensures EntriesExplained(OpShared(sh, op), log + OpRecord(sh, op))
  {
    var sh' := OpShared(sh, op);
    var log' := log + OpRecord(sh, op);
    forall k | k in sh'.entries ensures Spent(log', k) {
      if k in sh.entries {
        SpentStays(log, log', k);
      } else {
        assert log'[|log|].Added? && log'[|log|].jti == k;
      }
    }
  }

  lemma AddKeeps(sh: Shared, log: seq<Entry>, op: Op)
    requires SharedInv(sh, log) && op.AddUntil? && Fits(sh, op)
    ensures SharedInv(OpShared(sh, op), log + OpRecord(sh, op))
    ensures Moves(sh, log, OpShared(sh, op), log + OpRecord(sh, op))
  {
    AddRecordKeeps(sh, log, OpShared(sh, op).entries, OpRecord(sh, op));
    AddEntriesExplained(sh, log, op);
    AddMeaning(sh.entries, op.jti, op.until, sh.clock);
    assert forall i :: 0 <= i < |log| ==> (log + OpRecord(sh, op))[i] == log[i];
  }

  /** Dropping entries that are no longer live changes nothing a caller relies on. */
  lemma DropKeeps(sh: Shared, log: seq<Entry>, entries: Entries)
    requires SharedInv(sh, log)
    requires entries.Keys <= sh.entries.Keys
    requires forall jti :: jti in sh.entries && sh.clock <= sh.entries[jti] ==>
      jti in entries && entries[jti] == sh.entries[jti]
    ensures SharedInv(sh.(entries := entries), log)
    ensures Moves(sh, log, sh.(entries := entries), log)
  {}

  /** An entry that is not an Add changes nothing the blacklist part says. */
  lemma RecordKeeps(sh: Shared, log: seq<Entry>, counts: Generations, entry: Entry)
    requires AddsHold(sh, log) && EntriesExplained(sh, log) && FreshAfterLapse(log)
    requires !entry.Added?
    ensures AddsHold(sh.(counts := counts), log + [entry])
    ensures EntriesExplained(sh.(counts := counts), log + [entry])
    ensures FreshAfterLapse(log + [entry])
  {
    var log' := log + [entry];
    assert forall i :: 0 <= i < |log| ==> log'[i] == log[i];
    forall k | k in sh.entries ensures Spent(log', k) { SpentStays(log, log', k); }
  }

  lemma BumpGenerations(sh: Shared, log: seq<Entry>, key: string)
    requires GenerationsHold(sh, log) && key != ""
    ensures GenerationsHold(OpShared(sh, BumpUser(key)), log + OpRecord(sh, BumpUser(key)))
  {
    assert forall i :: 0 <= i < |log| ==> (log + OpRecord(sh, BumpUser(key)))[i] == log[i];
  }

  lemma BumpHistory(sh: Shared, log: seq<Entry>, key: string)
    requires GenerationsHold(sh, log) && BumpsOutdate(log) && DecisionsCurrent(log) && key != ""
    ensures BumpsOutdate(log + OpRecord(sh, BumpUser(key))) && DecisionsCurrent(log + OpRecord(sh, BumpUser(key)))
  {
    assert forall i :: 0 <= i < |log| ==> (log + OpRecord(sh, BumpUser(key)))[i] == log[i];
  }

  lemma BumpKeeps(sh: Shared, log: seq<Entry>, key: string)
    requires SharedInv(sh, log) && key != ""
    ensures SharedInv(OpShared(sh, BumpUser(key)), log + OpRecord(sh, BumpUser(key)))
    ensures Moves(sh, log, OpShared(sh, BumpUser(key)), log + OpRecord(sh, BumpUser(key)))
  {
    RecordKeeps(sh, log, AfterBump(sh.counts, key), Bumped(key, CurrentGeneration(sh.counts, key) + 1));
    BumpGenerations(sh, log, key);
    BumpHistory(sh, log, key);
  }

  lemma IssueKeeps(sh: Shared, log: seq<Entry>, claims: Claims, key: string)
    requires SharedInv(sh, log)
    requires claims.generation <= CurrentGeneration(sh.counts, key)
    ensures SharedInv(sh, log + [Issued(claims, key)])
  {
    RecordKeeps(sh, log, sh.counts, Issued(claims, key));
    assert forall i :: 0 <= i < |log| ==> (log + [Issued(claims, key)])[i] == log[i];
  }

  lemma DecideKeeps(sh: Shared, log: seq<Entry>, op: Op)
    requires SharedInv(sh, log) && (op.Decide? || op.JudgeExpiry?) && Fits(sh, op)
    ensures SharedInv(sh, log + OpRecord(sh, op))
  {
    RecordKeeps(sh, log, sh.counts, OpRecord(sh, op)[0]);
    assert forall i :: 0 <= i < |log| ==> (log + OpRecord(sh, op))[i] == log[i];
  }

  lemma OpKeeps(sh: Shared, log: seq<Entry>, op: Op)
    requires SharedInv(sh, log) && Fits(sh, op)
    ensures SharedInv(OpShared(sh, op), log + OpRecord(sh, op))
    ensures Moves(sh, log, OpShared(sh, op), log + OpRecord(sh, op))
  {
    match op
    case Look => assert log + [] == log;
    case AddUntil(_, _, _, _) => AddKeeps(sh, log, op);
    case DropRead(jti, read) =>
      DropKeeps(sh, log, AfterDrop(sh.entries, jti, read));
      assert log + [] == log;
    case BumpUser(key) =>
      if key == "" { assert log + [] == log; } else { BumpKeeps(sh, log, key); }
    case Decide(_, _, _, _) => DecideKeeps(sh, log, op);
    case JudgeExpiry(_, _) => DecideKeeps(sh, log, op);
  }

  // ---------------------------------------------------------------- a caller's own step

  /** A caller's step is one that fits, and leaves the caller's own invariant in the state it leads to. The
      old place is known to satisfy it there: the step itself is a move like any other's. */
  lemma LookupStep(cfg: Config, sh: Shared, log: seq<Entry>, me: nat, caller: Caller, choice: Choice)
    requires AddsHold(sh, log) && EntriesExplained(sh, log) && cfg.blacklistEnabled
    requires CallerInv(cfg, sh, log, me, caller) && InLookup(caller.pc)
    ensures var step := StepLookup(sh, caller.job, caller.pc, choice);
      Fits(sh, step.op) && CallerInv(cfg, OpShared(sh, step.op), log, me, Moved(caller, |log|, step.pc))
  {}

  lemma VerifyStep(cfg: Config, sh: Shared, log: seq<Entry>, me: nat, caller: Caller, choice: Choice)
    requires CallerInv(cfg, sh, log, me, caller) && caller.pc.Verify?
    ensures CallerInv(cfg, sh, log, me, caller.(pc := StepVerify(cfg, sh, caller.job, choice).pc))
    ensures StepVerify(cfg, sh, caller.job, choice).op.Look?
  {}

  lemma ConsumeStep(cfg: Config, sh: Shared, log: seq<Entry>, log': seq<Entry>, me: nat, caller: Caller, choice: Choice)
    requires EntriesExplained(sh, log)
    requires CallerInv(cfg, sh, log, me, caller) && caller.job.Refresh? && caller.pc.Consume?
    requires log' == log + OpRecord(sh, StepRefresh(cfg, sh, me, caller.job.claims, caller.pc, choice).op)
    requires var op := StepRefresh(cfg, sh, me, caller.job.claims, caller.pc, choice).op;
      CallerInv(cfg, OpShared(sh, op), log', me, caller)
    ensures var step := StepRefresh(cfg, sh, me, caller.job.claims, caller.pc, choice);
      CallerInv(cfg, OpShared(sh, step.op), log', me, caller.(pc := step.pc))
  {
    var claims := caller.job.claims;
    var step := StepRefresh(cfg, sh, me, claims, caller.pc, choice);
    if step.pc.Sign? {
      assert log'[|log|] == Added(claims.jti, claims.exp.value, sh.clock, Fresh, Some(me));
    } else if step.pc.Unconsumed? && claims.jti in sh.entries {
      SpentStays(log, log', claims.jti);
    }
  }

  lemma FinalStep(cfg: Config, sh: Shared, log: seq<Entry>, log': seq<Entry>, me: nat, caller: Caller, choice: Choice)
    requires CallerInv(cfg, sh, log, me, caller) && caller.job.Refresh?
    requires caller.pc.FinalGeneration? || caller.pc.FinalExpiry?
    requires log' == log + OpRecord(sh, StepRefresh(cfg, sh, me, caller.job.claims, caller.pc, choice).op)
    ensures var step := StepRefresh(cfg, sh, me, caller.job.claims, caller.pc, choice);
      CallerInv(cfg, sh, log', me, caller.(pc := step.pc))
  {
    var claims := caller.job.claims;
    var step := StepRefresh(cfg, sh, me, claims, caller.pc, choice);
    if step.op.Decide? {
      assert log'[|log|] == Decided(me, claims, step.op.subject, step.op.current);
    } else if step.op.JudgeExpiry? {
      var k :| 0 <= k < |log| && log[k].Decided? && log[k].caller == me && log[k].claims == claims
        && log[k].subject == caller.pc.subject;
      assert log'[k] == log[k] && log'[|log|] == OnTime(me, claims, sh.clock);
    }
  }

  lemma RefreshStep(cfg: Config, sh: Shared, log: seq<Entry>, log': seq<Entry>, me: nat, caller: Caller, choice: Choice)
    requires EntriesExplained(sh, log)
    requires CallerInv(cfg, sh, log, me, caller) && caller.job.Refresh?
    requires PastVerify(caller.pc) && !InLookup(caller.pc)
    requires log' == log + OpRecord(sh, StepRefresh(cfg, sh, me, caller.job.claims, caller.pc, choice).op)
    requires var op := StepRefresh(cfg, sh, me, caller.job.claims, caller.pc, choice).op;
      CallerInv(cfg, OpShared(sh, op), log', me, caller)
    ensures var step := StepRefresh(cfg, sh, me, caller.job.claims, caller.pc, choice);
      CallerInv(cfg, OpShared(sh, step.op), log', me, caller.(pc := step.pc))
  {
    if caller.pc.Consume? {
      ConsumeStep(cfg, sh, log, log', me, caller, choice);
    } else if caller.pc.FinalGeneration? || caller.pc.FinalExpiry? {
      FinalStep(cfg, sh, log, log', me, caller, choice);
    } else {
      assert log' == log;
    }
  }

  lemma SignOutStep(cfg: Config, sh: Shared, log: seq<Entry>, log': seq<Entry>, me: nat, caller: Caller, choice: Choice)
    requires CallerInv(cfg, sh, log, me, caller) && caller.job.SignOut?
    requires PastVerify(caller.pc) && !InLookup(caller.pc)
    requires log' == log + OpRecord(sh, StepSignOut(cfg, sh, |log|, caller.job.claims, caller.pc, choice).op)
    requires var op := StepSignOut(cfg, sh, |log|, caller.job.claims, caller.pc, choice).op;
      CallerInv(cfg, OpShared(sh, op), log', me, caller)
    ensures var step := StepSignOut(cfg, sh, |log|, caller.job.claims, caller.pc, choice);
      CallerInv(cfg, OpShared(sh, step.op), log', me, caller.(pc := step.pc))
  {
    var claims := caller.job.claims;
    var step := StepSignOut(cfg, sh, |log|, claims, caller.pc, choice);
    if caller.pc.SoAdd? && cfg.blacklistEnabled && step.pc == SoBump(true) && sh.clock < claims.exp.value {
      assert log'[|log|].Added? && log'[|log|].jti == claims.jti && log'[|log|].exp == claims.exp.value;
    }
    if step.op.BumpUser? {
      assert log'[|log|].Bumped?;
    }
  }

  lemma StepFits(cfg: Config, sh: Shared, logged: nat, me: nat, caller: Caller, choice: Choice)
    requires WellPlaced(caller)
    requires caller.pc.BlDrop? ==> caller.pc.read < sh.clock
    ensures Fits(sh, StepCaller(cfg, sh, logged, me, caller, choice).op)
  {}

  lemma OwnStep(cfg: Config, sh: Shared, log: seq<Entry>, sh': Shared, log': seq<Entry>, me: nat, caller: Caller,
                choice: Choice)
    requires AddsHold(sh, log) && EntriesExplained(sh, log)
    requires CallerInv(cfg, sh, log, me, caller)
    requires sh' == OpShared(sh, StepCaller(cfg, sh, |log|, me, caller, choice).op)
    requires log' == log + OpRecord(sh, StepCaller(cfg, sh, |log|, me, caller, choice).op)
    requires CallerInv(cfg, sh', log', me, caller)
    ensures CallerInv(cfg, sh', log', me, Moved(caller, |log|, StepCaller(cfg, sh, |log|, me, caller, choice).pc))
  {
    if caller.pc.Done? {
    } else if caller.pc.Verify? {
      VerifyStep(cfg, sh, log, me, caller, choice);
      assert log + [] == log;
    } else if InLookup(caller.pc) {
      LookupStep(cfg, sh, log, me, caller, choice);
      assert log + [] == log;
    } else {
      match caller.job
      case Refresh(_) => RefreshStep(cfg, sh, log, log', me, caller, choice);
      case SignOut(_) => SignOutStep(cfg, sh, log, log', me, caller, choice);
      case Revoke(_, _) =>
      case Lookup(_) =>
    }
  }

  /** Every step a caller takes keeps the invariant. */
  lemma CallerStepKeeps(cfg: Config, sh: Shared, log: seq<Entry>, me: nat, caller: Caller, choice: Choice)
    requires SharedInv(sh, log) && CallerInv(cfg, sh, log, me, caller)
    ensures var step := StepCaller(cfg, sh, |log|, me, caller, choice);
      && SharedInv(OpShared(sh, step.op), log + OpRecord(sh, step.op))
      && Moves(sh, log, OpShared(sh, step.op), log + OpRecord(sh, step.op))
      && CallerInv(cfg, OpShared(sh, step.op), log + OpRecord(sh, step.op), me, Moved(caller, |log|, step.pc))
  {
    var op := StepCaller(cfg, sh, |log|, me, caller, choice).op;
    StepFits(cfg, sh, |log|, me, caller, choice);
    OpKeeps(sh, log, op);
    CallerStays(cfg, sh, log, OpShared(sh, op), log + OpRecord(sh, op), me, caller);
    OwnStep(cfg, sh, log, OpShared(sh, op), log + OpRecord(sh, op), me, caller, choice);
  }

  /** Every caller other than the one that moved keeps its own. */
  lemma OthersStay(s: State, sh': Shared, log': seq<Entry>)
    requires Inv(s) && Moves(s.shared, s.log, sh', log')
    ensures forall i :: 0 <= i < |s.callers| ==> CallerInv(s.cfg, sh', log', i, s.callers[i])
  {
    forall i | 0 <= i < |s.callers| ensures CallerInv(s.cfg, sh', log', i, s.callers[i]) {
      CallerStays(s.cfg, s.shared, s.log, sh', log', i, s.callers[i]);
    }
  }

  lemma TickKeeps(sh: Shared, log: seq<Entry>, elapsed: nat)
    requires SharedInv(sh, log)
    ensures SharedInv(sh.(clock := sh.clock + elapsed), log)
    ensures Moves(sh, log, sh.(clock := sh.clock + elapsed), log)
  {}

  /** Only a refresh that goes to the signing step is recorded as a consumer, and it never leaves that step. */
  lemma SigningStays(cfg: Config, sh: Shared, logged: nat, me: nat, caller: Caller, choice: Choice)
    requires WellPlaced(caller)
    ensures var step := StepCaller(cfg, sh, logged, me, caller, choice);
      && (caller.job.Refresh? && ReachedSigning(caller.pc) ==> ReachedSigning(step.pc))
      && (step.op.AddUntil? && step.op.consumer.Some? ==>
            caller.job.Refresh? && step.op.consumer.value == me && step.op.jti == caller.job.claims.jti
            && ReachedSigning(step.pc))
  {}

  lemma ConsumersStay(s: State, e: Event)
    requires ConsumersSign(s) && Enabled(s, e)
    ensures ConsumersSign(Apply(s, e))
  {
    var s' := Apply(s, e);
    if e.Advance? {
      SigningStays(s.cfg, s.shared, |s.log|, e.caller, s.callers[e.caller], e.choice);
    }
    forall k | 0 <= k < |s'.log| && s'.log[k].Added? && s'.log[k].consumer.Some?
      ensures var i := s'.log[k].consumer.value;
        i < |s'.callers| && s'.callers[i].job.Refresh? && s'.callers[i].job.claims.jti == s'.log[k].jti
        && ReachedSigning(s'.callers[i].pc)
    {
      if k < |s.log| {
        assert s'.log[k] == s.log[k];
      }
    }
  }

  lemma EventKeeps(s: State, e: Event)
    requires Inv(s) && Enabled(s, e)
    ensures Inv(Apply(s, e)) && Apply(s, e).cfg == s.cfg
    ensures Moves(s.shared, s.log, Apply(s, e).shared, Apply(s, e).log)
  {
    var s' := Apply(s, e);
    ConsumersStay(s, e);
    match e
    case Tick(elapsed) => TickKeeps(s.shared, s.log, elapsed); OthersStay(s, s'.shared, s'.log);
    case Cleanup => DropKeeps(s.shared, s.log, s'.shared.entries); OthersStay(s, s'.shared, s'.log);
    case Issue(claims, key, _) => IssueKeeps(s.shared, s.log, claims, key); OthersStay(s, s'.shared, s'.log);
    case Bump(key) => OpKeeps(s.shared, s.log, BumpUser(key)); OthersStay(s, s'.shared, s'.log);
    case Spawn(job) =>
    case Advance(i, choice) =>
      CallerStepKeeps(s.cfg, s.shared, s.log, i, s.callers[i], choice);
      OthersStay(s, s'.shared, s'.log);
  }

  lemma {:induction false} RunKeeps(s: State, run: seq<Event>)
    requires Inv(s) && Legal(s, run)
    ensures Inv(Exec(s, run)) && Exec(s, run).cfg == s.cfg
    decreases |run|
  {
    if run != [] {
      EventKeeps(s, run[0]);
      RunKeeps(Apply(s, run[0]), run[1..]);
    }
  }

  // ---------------------------------------------------------------- the guarantees

  /** Both user keys are the same exactly for a token that carries a uid. For one without, RefreshToken reads
      the generation of "<nil>" while SignOutToken bumps nobody. */
  lemma UserKeysAgree(uid: Uid)
    ensures RefreshKey(uid) == SignOutKey(uid) <==> !uid.NoUid?
  {}

  /** s is reached by some run of the protocol under cfg. */
  ghost predicate Reached(cfg: Config, clock: Time, run: seq<Event>, s: State) {
    Legal(Initial(cfg, clock), run) && s == Exec(Initial(cfg, clock), run)
  }

  lemma ReachedInv(cfg: Config, clock: Time, run: seq<Event>, s: State)
    requires Reached(cfg, clock, run, s)
    ensures Inv(s) && s.cfg == cfg
  {
    RunKeeps(Initial(cfg, clock), run);
  }

  /** A sign-out that reported success bumped the counter a refresh for the token's user reads exactly when the token
      carries a uid that does not print as the empty string; and when it did not, it bumped nothing. */
  lemma SignOutBumpsIff(cfg: Config, clock: Time, run: seq<Event>, s: State, i: nat)
    requires Reached(cfg, clock, run, s)
    requires i < |s.callers| && s.callers[i].job.SignOut? && s.callers[i].pc.Done? && s.callers[i].pc.outcome.SignedOut?
    ensures var uid, bump := s.callers[i].job.claims.uid, s.callers[i].pc.outcome.bump;
      && (bump.Some? <==> !uid.NoUid? && RefreshKey(uid) != "")
      && (bump.Some? ==>
            && s.callers[i].start <= bump.value < |s.log|
            && s.log[bump.value].Bumped? && s.log[bump.value].key == RefreshKey(uid))
  {
    ReachedInv(cfg, clock, run, s);
    assert CallerInv(cfg, s.shared, s.log, i, s.callers[i]);
  }

  /** e, then rest. */
  lemma Then(s: State, e: Event, t: State, rest: seq<Event>)
    requires Enabled(s, e) && Apply(s, e) == t && Legal(t, rest)
    ensures Legal(s, [e] + rest) && Exec(s, [e] + rest) == Exec(t, rest)
  {
    assert ([e] + rest)[1..] == rest;
  }

  /** Both exceptions happen: a sign-out with such a token succeeds and leaves every generation as it was. */
  lemma SignOutCanBumpNobody(uid: Uid, clock: Time) returns (run: seq<Event>, s: State)
    requires uid == NoUid || uid == TextUid("")
    ensures Reached(Config(false, 0), clock, run, s) && |s.callers| == 1
    ensures s.callers[0].job.SignOut? && s.callers[0].job.claims.uid == uid && s.callers[0].pc == Done(SignedOut(None))
    ensures s.shared.counts == map[] && s.log == []
  {
    var cfg := Config(false, 0);
    var job := SignOut(Claims("id", Some(clock + 1), uid, "access", 0));
    var s0 := Initial(cfg, clock);
    var s1, s2 := s0.(callers := [Caller(job, 0, 0, Verify)]), s0.(callers := [Caller(job, 0, 0, SoAdd)]);
    var s3 := s0.(callers := [Caller(job, 0, 0, SoBump(true))]);
    s := s0.(callers := [Caller(job, 0, 0, Done(SignedOut(None)))]);
    run := [];
    Then(s3, Advance(0, Ok), s, run); run := [Advance(0, Ok)] + run;
    Then(s2, Advance(0, Ok), s3, run); run := [Advance(0, Ok)] + run;
    Then(s1, Advance(0, Ok), s2, run); run := [Advance(0, Ok)] + run;
    Then(s0, Spawn(job), s1, run); run := [Spawn(job)] + run;
  }

  /** With the blacklist enabled a refresh token is spent once: of all the callers presenting one token, in any
      interleaving with revocations, sign-outs, lookups and cleanups, at most one reaches the signing step, and
      it consumed the token strictly before its expiry. */
  lemma SpentOnce(cfg: Config, clock: Time, run: seq<Event>, s: State, i: nat, j: nat)
    requires Reached(cfg, clock, run, s) && cfg.blacklistEnabled
    requires i < |s.callers| && s.callers[i].job.Refresh? && ReachedSigning(s.callers[i].pc)
    requires j < |s.callers| && s.callers[j].job.Refresh? && ReachedSigning(s.callers[j].pc)
    requires s.callers[i].job.claims.jti == s.callers[j].job.claims.jti
    requires s.callers[i].job.claims.exp == s.callers[j].job.claims.exp
    ensures i == j
    ensures exists k :: 0 <= k < |s.log| && s.log[k].Added? && s.log[k].consumer == Some(i)
              && s.log[k].jti == s.callers[i].job.claims.jti && s.log[k].at < s.log[k].exp
              && Some(s.log[k].exp) == s.callers[i].job.claims.exp
  {
    ReachedInv(cfg, clock, run, s);
    var claims := s.callers[i].job.claims;
    assert CallerInv(cfg, s.shared, s.log, i, s.callers[i]) && CallerInv(cfg, s.shared, s.log, j, s.callers[j]);
    var k :| 0 <= k < |s.log| && s.log[k].Added? && s.log[k].result.Fresh? && s.log[k].consumer == Some(i)
      && s.log[k].jti == claims.jti && s.log[k].exp == claims.exp.value;
    var l :| 0 <= l < |s.log| && s.log[l].Added? && s.log[l].result.Fresh? && s.log[l].consumer == Some(j)
      && s.log[l].jti == claims.jti && s.log[l].exp == claims.exp.value;
    assert k == l;
  }

  /** Only refreshes put jti on the blacklist. */
  ghost predicate OnlyRefreshesSpend(log: seq<Entry>, jti: string) {
    forall k | 0 <= k < |log| && log[k].Added? ::
      log[k].jti == jti && !log[k].result.Extended? ==> log[k].consumer.Some?
  }

  /** A refusal as "already used" is never wrong: the id was put on the blacklist. When only refreshes put it
      there, one of them reached the signing step. */
  lemma UsedMeansSpent(cfg: Config, clock: Time, run: seq<Event>, s: State, i: nat)
    requires Reached(cfg, clock, run, s)
    requires i < |s.callers| && s.callers[i].job.Refresh? && s.callers[i].pc == Done(Refused(TokenUsed))
    ensures Spent(s.log, s.callers[i].job.claims.jti)
    ensures OnlyRefreshesSpend(s.log, s.callers[i].job.claims.jti) ==>
      exists w ::
        && 0 <= w < |s.callers| && s.callers[w].job.Refresh?
        && s.callers[w].job.claims.jti == s.callers[i].job.claims.jti && ReachedSigning(s.callers[w].pc)
  {
    ReachedInv(cfg, clock, run, s);
    var jti := s.callers[i].job.claims.jti;
    assert CallerInv(cfg, s.shared, s.log, i, s.callers[i]);
    var k :| 0 <= k < |s.log| && s.log[k].Added? && s.log[k].jti == jti && !s.log[k].result.Extended?;
    if s.log[k].consumer.Some? {
      assert ReachedSigning(s.callers[s.log[k].consumer.value].pc);
    }
  }

  /** Once an Add of a deadline still ahead has returned, no lookup begun after it, on its own or inside a refresh that
      may itself have begun before it, answers "not listed" while the clock is at or before that deadline, and none is
      even about to drop an entry. */
  lemma BlacklistedUntilDeadline(cfg: Config, clock: Time, run: seq<Event>, s: State, i: nat, k: nat)
    requires Reached(cfg, clock, run, s) && cfg.blacklistEnabled
    requires i < |s.callers| && (s.callers[i].job.Lookup? || s.callers[i].job.Refresh?)
    requires k < s.callers[i].looked && k < |s.log|
    requires s.log[k].Added? && s.log[k].jti == s.callers[i].job.Jti() && s.shared.clock <= s.log[k].exp
    ensures !s.callers[i].pc.BlDrop?
    ensures if s.callers[i].job.Lookup? then s.callers[i].pc != Done(Answer(false)) else !s.callers[i].pc.Recheck?
    ensures Live(s.shared.entries, s.log[k].jti, s.shared.clock)
    ensures s.callers[i].pc.BlClock? ==>
      StepLookup(s.shared, s.callers[i].job, s.callers[i].pc, Ok).pc == Answered(s.callers[i].job, true)
  {
    ReachedInv(cfg, clock, run, s);
    assert CallerInv(cfg, s.shared, s.log, i, s.callers[i]);
  }

  /** The second lock section of a lookup never removes a live entry, of any id. */
  lemma DropsOnlyExpired(cfg: Config, clock: Time, run: seq<Event>, s: State, i: nat, jti: string)
    requires Reached(cfg, clock, run, s)
    requires i < |s.callers| && s.callers[i].pc.BlDrop?
    requires Live(s.shared.entries, jti, s.shared.clock)
    ensures var after := AfterDrop(s.shared.entries, s.callers[i].job.Jti(), s.callers[i].pc.read);
      jti in after && after[jti] == s.shared.entries[jti]
  {
    ReachedInv(cfg, clock, run, s);
    assert CallerInv(cfg, s.shared, s.log, i, s.callers[i]);
  }

  /** With the blacklist enabled or not, a caller that reached the signing step presented a refresh token, signs
      for the identity its final decision was taken for, and judged the expiry after that decision. */
  lemma SigningWasDecided(cfg: Config, clock: Time, run: seq<Event>, s: State, m: nat)
    requires Reached(cfg, clock, run, s)
    requires m < |s.callers| && s.callers[m].job.Refresh? && ReachedSigning(s.callers[m].pc)
    ensures s.callers[m].job.claims.tokenType == "refresh"
    ensures HasJudged(s.log, m, s.callers[m].job.claims, SubjectOf(s.callers[m].pc))
  {
    ReachedInv(cfg, clock, run, s);
    assert CallerInv(cfg, s.shared, s.log, m, s.callers[m]);
  }

  /** A caller that reached the signing step took its final decision before every bump of the token's user that
      followed the token's issue: a bump that lands first ends the token, whatever the first check said. The
      hypothesis is that the issuer and the refresh name the user by one key. */
  lemma BumpEndsEarlierTokens(cfg: Config, clock: Time, run: seq<Event>, s: State, m: nat, i: nat)
    requires Reached(cfg, clock, run, s)
    requires m < |s.callers| && s.callers[m].job.Refresh? && ReachedSigning(s.callers[m].pc)
    requires i < |s.log| && s.log[i].Issued? && s.log[i].claims == s.callers[m].job.claims
    requires s.log[i].key == RefreshKey(s.log[i].claims.uid)
    ensures exists k ::
      && 0 <= k < |s.log| && s.log[k].Decided? && s.log[k].caller == m
      && s.log[k].subject == SubjectOf(s.callers[m].pc)
      && (forall j :: i < j < k ==> !(s.log[j].Bumped? && s.log[j].key == s.log[i].key))
  {
    ReachedInv(cfg, clock, run, s);
    SigningWasDecided(cfg, clock, run, s, m);
    var claims := s.callers[m].job.claims;
    var k :| 0 <= k < |s.log| && s.log[k].Decided? && s.log[k].caller == m && s.log[k].claims == claims
      && s.log[k].subject == SubjectOf(s.callers[m].pc);
    assert forall j :: i < j < k ==> !(s.log[j].Bumped? && s.log[j].key == s.log[i].key);
  }

  /** A sign-out that reported success, after however many failed attempts, left the token's id on the
      blacklist until its expiry and every refresh token issued to the user before it stale. */
  lemma SignOutHolds(cfg: Config, clock: Time, run: seq<Event>, s: State, i: nat)
    requires Reached(cfg, clock, run, s)
    requires i < |s.callers| && s.callers[i].job.SignOut? && s.callers[i].pc.Done? && s.callers[i].pc.outcome.SignedOut?
    ensures cfg.blacklistEnabled ==> s.callers[i].job.claims.exp.Some?
    ensures cfg.blacklistEnabled && s.shared.clock < s.callers[i].job.claims.exp.value ==>
      Live(s.shared.entries, s.callers[i].job.claims.jti, s.shared.clock)
    ensures forall k | 0 <= k < s.callers[i].start && k < |s.log| && s.log[k].Issued? ::
      s.log[k].key != "" && s.log[k].key == SignOutKey(s.callers[i].job.claims.uid) ==>
      s.log[k].claims.generation < CurrentGeneration(s.shared.counts, s.log[k].key)
  {
    ReachedInv(cfg, clock, run, s);
    var claims := s.callers[i].job.claims;
    assert CallerInv(cfg, s.shared, s.log, i, s.callers[i]);
    if cfg.blacklistEnabled && s.shared.clock < claims.exp.value {
      var k :| 0 <= k < |s.log| && s.log[k].Added? && s.log[k].jti == claims.jti && s.log[k].exp == claims.exp.value;
      assert claims.jti in s.shared.entries;
    }
    if SignOutKey(claims.uid) != "" {
      var j := s.callers[i].pc.outcome.bump.value;
      var start, key := s.callers[i].start, SignOutKey(claims.uid);
      forall k | 0 <= k < start && k < |s.log| && s.log[k].Issued? && s.log[k].key == key
        ensures s.log[k].claims.generation < CurrentGeneration(s.shared.counts, s.log[k].key)
      {
        assert s.log[k].claims.generation < s.log[j].generation;
      }
    }
  }
}
