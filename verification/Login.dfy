/**
The account's login state machine. Each region that holds `mu_` is one step; the
wait for a 2FA code, where there is one, is two, and so is the finish of a login
worker, which reads `apple_id_` without the mutex before it harvests.
*/
module Login {
  import opened Bytes

  datatype State = LoggedOut | InProgress | Awaiting2FA | Authenticated | Failed

  datatype Tokens = Tokens(appleId: string, storefront: string, devToken: string, musicToken: string, dsid: string)

  const NO_TOKENS := Tokens("", "", "", "", "")

  /** What `mu_` protects. */
  datatype Fields = Fields(
    state: State, appleId: string, password: string, code: string, submitted: bool, aborted: bool,
    tokens: Tokens, error: string, errorCode: int)

  const FRESH := Fields(LoggedOut, "", "", "", false, false, NO_TOKENS, "", 0)

  /** Why a login worker gave up. */
  datatype Cause =
    | NotInitialized | NoContext | NoFlow | NoResponse | HarvestFailed
    | Refused(code: int, what: string, customer: string, responseType: string)

  function Message(c: Cause): (m: string)
    ensures m != ""
  {
    match c
    case NotInitialized => "runtime not initialized"
    case NoContext => "request context unavailable"
    case NoFlow => "make_shared<AuthenticateFlow> returned null"
    case NoResponse => "AuthenticateFlow::response() returned null"
    case HarvestFailed => "token harvest failed after flow.run() succeeded"
    case Refused(_, what, customer, responseType) =>
      if what != "" then what
      else if customer != "" then customer
      else "Apple returned response type " + responseType
  }

  function Code(c: Cause): int {
    match c
    case NotInitialized => -1
    case NoContext => -2
    case NoFlow => -3
    case NoResponse => -4
    case HarvestFailed => -5
    case Refused(code, _, _, _) => code
  }

  /** What the Apple services answer while tokens are harvested. */
  datatype Answers = Answers(
    storefront: string, devToken: string, guid: string, musicToken: string, dsid: Option<string>)

  /** Everything that has to be had was had. */
  predicate Complete(a: Answers) {
    a.storefront != "" && a.devToken != "" && a.guid != "" && a.musicToken != ""
  }

  /** The tokens are those the services answered, each in its place. */
  predicate Holds(t: Tokens, a: Answers) {
    && t.storefront == a.storefront && t.devToken == a.devToken && t.musicToken == a.musicToken
    && (a.dsid.Some? ==> t.dsid == a.dsid.value) && (a.dsid.None? ==> t.dsid == "")
  }

  /** `harvest_all` */
  function Harvest(appleId: string, a: Answers): (t: Option<Tokens>)
    ensures t.Some? <==> Complete(a)
    ensures t.Some? ==> Holds(t.value, a) && t.value.appleId == appleId
  {
    if a.storefront == "" || a.devToken == "" || a.guid == "" || a.musicToken == "" then None
    else Some(Tokens(appleId, a.storefront, a.devToken, a.musicToken, if a.dsid.Some? then a.dsid.value else ""))
  }

  predicate Harvested(t: Tokens) {
    t.storefront != "" && t.devToken != "" && t.musicToken != ""
  }

  // ----- the regions

  predicate Busy(s: State) { s.InProgress? || s.Awaiting2FA? }

  function StartLogin(f: Fields, id: string, password: string): Fields {
    if Busy(f.state) then f
    else Fields(InProgress, id, password, "", false, false, NO_TOKENS, "", 0)
  }

  function Submit2fa(f: Fields, code: string): Fields {
    if f.state != Awaiting2FA then f else f.(code := code, submitted := true, state := InProgress)
  }

  function RestoreBegin(f: Fields): Fields {
    if f.state != LoggedOut then f else Fields(InProgress, f.appleId, "", "", false, false, NO_TOKENS, "", 0)
  }

  function RestoreFail(f: Fields): Fields { f.(state := LoggedOut) }

  function LogoutSignal(f: Fields): Fields { f.(aborted := true) }

  function LogoutClear(f: Fields): Fields { FRESH }

  /** The handler has to wait: neither a code nor an abort is there when it asks. */
  predicate Waits(f: Fields) { !f.submitted && !f.aborted }

  /** The wait gives `mu_` up only if it does wait; otherwise the handler runs on in one region. */
  function Park(f: Fields): Fields { if Waits(f) then f.(state := Awaiting2FA) else Resume(f) }

  function Resume(f: Fields): Fields { f.(state := InProgress) }

  function FinishAuthenticated(f: Fields, t: Tokens): Fields {
    f.(tokens := t, appleId := t.appleId, password := "", code := "", submitted := false, state := Authenticated)
  }

  function FinishFailed(f: Fields, message: string, code: int): Fields {
    f.(error := message, errorCode := code, password := "", code := "", submitted := false, state := Failed)
  }

  /** The account's fields, and the bodies of the regions. */
  class Account {
    var state: State
    var appleId: string
    var password: string
    var code: string
    var submitted: bool
    var aborted: bool
    var tokens: Tokens
    var lastError: string
    var lastErrorCode: int

    function View(): Fields
      reads this
    {
      Fields(state, appleId, password, code, submitted, aborted, tokens, lastError, lastErrorCode)
    }

    constructor ()
      ensures View() == FRESH
    {
      state, appleId, password, code := LoggedOut, "", "", "";
      submitted, aborted, tokens, lastError, lastErrorCode := false, false, NO_TOKENS, "", 0;
    }

    method Start(id: string, pass: string) returns (started: bool)
      modifies this
      ensures started <==> !Busy(old(state))
      ensures View() == StartLogin(old(View()), id, pass)
      ensures started ==> View() == Fields(InProgress, id, pass, "", false, false, NO_TOKENS, "", 0)
      ensures !started ==> View() == old(View())
    {
      if state == InProgress || state == Awaiting2FA {
        return false;
      }
      appleId, password := id, pass;
      code, submitted, aborted := "", false, false;
      tokens, lastError, lastErrorCode := NO_TOKENS, "", 0;
      state := InProgress;
      started := true;
    }

    method SubmitCode(c: string) returns (ok: bool)
      modifies this
      ensures ok <==> old(state) == Awaiting2FA
      ensures View() == Submit2fa(old(View()), c)
      ensures View() == if ok then old(View()).(code := c, submitted := true, state := InProgress) else old(View())
    {
      if state != Awaiting2FA {
        return false;
      }
      code, submitted, state := c, true, InProgress;
      ok := true;
    }

    method BeginRestore() returns (ok: bool)
      modifies this
      ensures ok <==> old(state) == LoggedOut
      ensures View() == RestoreBegin(old(View()))
      ensures ok ==> View() == Fields(InProgress, old(appleId), "", "", false, false, NO_TOKENS, "", 0)
      ensures !ok ==> View() == old(View())
    {
      if state != LoggedOut {
        return false;
      }
      password, code, submitted, aborted := "", "", false, false;
      tokens, lastError, lastErrorCode := NO_TOKENS, "", 0;
      state := InProgress;
      ok := true;
    }

    method FailRestore()
      modifies this
      ensures View() == RestoreFail(old(View()))
      ensures View() == old(View()).(state := LoggedOut)
    {
      state := LoggedOut;
    }

    method SignalLogout()
      modifies this
      ensures View() == LogoutSignal(old(View()))
      ensures View() == old(View()).(aborted := true)
    {
      aborted := true;
    }

    method ClearLogout()
      modifies this
      ensures View() == LogoutClear(old(View()))
      ensures View() == Fields(LoggedOut, "", "", "", false, false, NO_TOKENS, "", 0)
    {
      state, appleId, password, code := LoggedOut, "", "", "";
      submitted, aborted := false, false;
      tokens, lastError, lastErrorCode := NO_TOKENS, "", 0;
    }

    /** `fetch_credentials_blocking` when no code is asked for. */
    method Credentials() returns (user: string, pass: string, ok: bool)
      ensures user == appleId && pass == password && (ok <==> appleId != "")
    {
      user, pass, ok := appleId, password, appleId != "";
    }

    /** Its 2FA path: to the wait, or on to the end when there is nothing to wait for. */
    method ParkFor2fa() returns (waits: bool, user: string, pass: string, ok: bool)
      modifies this
      ensures waits <==> Waits(old(View()))
      ensures View() == Park(old(View()))
      ensures waits <==> !submitted && !aborted
      ensures View() == old(View()).(state := if waits then Awaiting2FA else InProgress)
      ensures ok <==> submitted && !aborted
      ensures !waits ==> user == appleId && pass == if ok then password + code else password
    {
      state := Awaiting2FA;
      waits, user, pass, ok := !submitted && !aborted, "", "", false;
      if !waits {
        user, pass, ok := ResumeFrom2fa();
      }
    }

    /** And from the wake-up on. */
    method ResumeFrom2fa() returns (user: string, pass: string, ok: bool)
      modifies this
      ensures View() == Resume(old(View()))
      ensures View() == old(View()).(state := InProgress)
      ensures ok <==> submitted && !aborted
      ensures user == appleId && pass == if ok then password + code else password
    {
      state := InProgress;
      user := appleId;
      if aborted || !submitted {
        return user, password, false;
      }
      pass, ok := password + code, true;
    }

    method Succeed(t: Tokens)
      modifies this
      ensures View() == FinishAuthenticated(old(View()), t)
      ensures View() == old(View()).(
        tokens := t, appleId := t.appleId, password := "", code := "", submitted := false, state := Authenticated)
    {
      tokens, appleId := t, t.appleId;
      password, code, submitted := "", "", false;
      state := Authenticated;
    }

    method Fail(message: string, errorCode: int)
      modifies this
      ensures View() == FinishFailed(old(View()), message, errorCode)
      ensures View() == old(View()).(
        error := message, errorCode := errorCode, password := "", code := "", submitted := false, state := Failed)
    {
      lastError, lastErrorCode := message, errorCode;
      password, code, submitted := "", "", false;
      state := Failed;
    }
  }

  // ----- the threads

  /** A login worker, started for the id `forId`. A logout or a new login detaches it; it runs on all the same. */
  datatype Worker = Worker(forId: string, pc: WorkerPc)

  datatype WorkerPc =
    | Running               // inside the flow
    | Parked                // inside the flow, in the credential handler's wait
    | Harvesting(id: string)
    | Ended

  datatype RestorePc = Free | Gated | Restoring

  datatype Sys = Sys(f: Fields, workers: seq<Worker>, restore: RestorePc, signalled: nat)

  datatype Action =
    | Start(id: string, password: string)
    | Submit(code: string)
    | ParkWorker(w: nat)
    | ResumeWorker(w: nat)  // a code, an abort or the five-minute timeout
    | FailWorker(w: nat, cause: Cause)
    | ReadId(w: nat)
    | FinishWorker(w: nat, answers: Answers)
    | Gate                  // takes `restore_mu_`
    | GiveUp                // no loader, no runtime or no warm session
    | TryRestore
    | LoseContext
    | FinishRestore(name: string, answers: Answers)
    | Signal                // the first half of logout
    | Clear                 // the second

  const INIT := Sys(FRESH, [], Free, 0)

  predicate Enabled(s: Sys, a: Action) {
    match a
    case Start(_, _) => true
    case Submit(_) => true
    case ParkWorker(w) => w < |s.workers| && s.workers[w].pc.Running?
    case ResumeWorker(w) => w < |s.workers| && s.workers[w].pc.Parked?
    case FailWorker(w, _) => w < |s.workers| && s.workers[w].pc.Running?
    case ReadId(w) => w < |s.workers| && s.workers[w].pc.Running?
    case FinishWorker(w, _) => w < |s.workers| && s.workers[w].pc.Harvesting?
    case Gate => s.restore.Free?
    case GiveUp => s.restore.Gated?
    case TryRestore => s.restore.Gated?
    case LoseContext => s.restore.Restoring?
    case FinishRestore(_, _) => s.restore.Restoring?
    case Signal => true
    case Clear => s.signalled > 0
  }

  function Move(s: Sys, w: nat, pc: WorkerPc): seq<Worker>
    requires w < |s.workers|
  {
    s.workers[w := s.workers[w].(pc := pc)]
  }

  function Next(s: Sys, a: Action): Sys
    requires Enabled(s, a)
  {
    match a
    case Start(id, password) =>
      s.(f := StartLogin(s.f, id, password),
         workers := if Busy(s.f.state) then s.workers else s.workers + [Worker(id, Running)])
    case Submit(code) => s.(f := Submit2fa(s.f, code))
    case ParkWorker(w) => s.(f := Park(s.f), workers := Move(s, w, if Waits(s.f) then Parked else Running))
    case ResumeWorker(w) => s.(f := Resume(s.f), workers := Move(s, w, Running))
    case FailWorker(w, cause) => s.(f := FinishFailed(s.f, Message(cause), Code(cause)), workers := Move(s, w, Ended))
    case ReadId(w) => s.(workers := Move(s, w, Harvesting(s.f.appleId)))
    case FinishWorker(w, answers) =>
      var t := Harvest(s.workers[w].pc.id, answers);
      s.(f := if t.Some? then FinishAuthenticated(s.f, t.value)
              else FinishFailed(s.f, Message(HarvestFailed), Code(HarvestFailed)),
         workers := Move(s, w, Ended))
    case Gate => s.(restore := Gated)
    case GiveUp => s.(restore := Free)
    case TryRestore =>
      s.(f := RestoreBegin(s.f), restore := if s.f.state.LoggedOut? then Restoring else Free)
    case LoseContext => s.(f := RestoreFail(s.f), restore := Free)
    case FinishRestore(name, answers) =>
      // the restored session carries the configured label, or no id at all
      var t := Harvest(name, answers);
      s.(f := if t.Some? then FinishAuthenticated(s.f, t.value) else RestoreFail(s.f), restore := Free)
    case Signal => s.(f := LogoutSignal(s.f), signalled := s.signalled + 1)
    case Clear => s.(f := LogoutClear(s.f), signalled := s.signalled - 1)
  }

  ghost predicate Runs(s: Sys, acts: seq<Action>, t: Sys)
    decreases |acts|
  {
    if acts == [] then t == s else Enabled(s, acts[0]) && Runs(Next(s, acts[0]), acts[1..], t)
  }

  // ----- safety: every interleaving, logouts and stale workers included

  ghost predicate Safe(f: Fields) {
    && (f.state.Authenticated? ==>
          Harvested(f.tokens) && f.password == "" && f.code == "" && f.appleId == f.tokens.appleId)
    && (f.state.Failed? ==> f.password == "" && f.code == "" && f.error != "")
  }

  lemma {:induction false} AlwaysSafe(s: Sys, acts: seq<Action>, t: Sys)
    requires Safe(s.f) && Runs(s, acts, t)
    ensures Safe(t.f)
    decreases |acts|
  {
    if acts == [] {
    } else {
      AlwaysSafe(Next(s, acts[0]), acts[1..], t);
    }
  }

  // ----- whose tokens the account holds

  /** The states a run from the start goes through. */
  ghost predicate Trace(tr: seq<Sys>, acts: seq<Action>) {
    && |tr| == |acts| + 1 && tr[0] == INIT
    && forall n | 0 <= n < |acts| :: Enabled(tr[n], acts[n]) && tr[n + 1] == Next(tr[n], acts[n])
  }

  /** A login or a restore succeeds, with these answers. */
  predicate Publishes(a: Action) {
    (a.FinishWorker? || a.FinishRestore?) && Complete(a.answers)
  }

  lemma StepTokens(s: Sys, a: Action)
    requires Enabled(s, a) && Next(s, a).f.state.Authenticated?
    ensures if Publishes(a) then Holds(Next(s, a).f.tokens, a.answers)
            else s.f.state.Authenticated? && Next(s, a).f.tokens == s.f.tokens
  {
  }

  /** An authenticated account holds, field by field, what the latest login or restore that succeeded was answered. */
  lemma {:induction false} TokensAreLatest(tr: seq<Sys>, acts: seq<Action>, n: nat) returns (m: nat)
    requires Trace(tr, acts) && n < |tr| && tr[n].f.state.Authenticated?
    ensures m < n && Publishes(acts[m]) && Holds(tr[n].f.tokens, acts[m].answers)
    ensures forall k | m < k < n :: !Publishes(acts[k])
  {
    hide Enabled, Next, Holds, Complete;
    if n == 0 {
      assert false;
    }
    assert tr[n - 1 + 1] == Next(tr[n - 1], acts[n - 1]);
    StepTokens(tr[n - 1], acts[n - 1]);
    if Publishes(acts[n - 1]) {
      m := n - 1;
    } else {
      m := TokensAreLatest(tr, acts, n - 1);
    }
  }

  /** What a failed login says: the service's own words, else those meant for the customer, else its answer's type. */
  lemma FailureTold(s: Sys, w: nat, cause: Cause)
    requires Enabled(s, FailWorker(w, cause))
    ensures var f := Next(s, FailWorker(w, cause)).f;
      && f.state.Failed? && f.password == "" && f.code == "" && f.tokens == s.f.tokens && f.appleId == s.f.appleId
      && (cause.Refused? ==>
            && f.errorCode == cause.code
            && (cause.what != "" ==> f.error == cause.what)
            && (cause.what == "" && cause.customer != "" ==> f.error == cause.customer)
            && (cause.what == "" && cause.customer == "" ==>
                  f.error == "Apple returned response type " + cause.responseType))
      && (!cause.Refused? ==> -5 <= f.errorCode < 0 && f.error != "")
  {
  }

  // ----- one flow at a time, as long as no logout cuts into one

  predicate Live(w: Worker) { !w.pc.Ended? }

  /** No login worker and no restore is on its way. */
  ghost predicate Idle(s: Sys) {
    (forall w | 0 <= w < |s.workers| :: !Live(s.workers[w])) && !s.restore.Restoring?
  }

  /** A logout empties the account while a flow is on its way. */
  ghost predicate CutsIn(s: Sys, a: Action) { a.Clear? && !Idle(s) }

  ghost predicate Uncut(s: Sys, acts: seq<Action>)
    decreases |acts|
  {
    acts != [] && Enabled(s, acts[0]) ==> !CutsIn(s, acts[0]) && Uncut(Next(s, acts[0]), acts[1..])
  }

  /** The one live worker, and what it knows. */
  ghost predicate Sole(s: Sys, w: nat) {
    && w < |s.workers| && Live(s.workers[w]) && !s.restore.Restoring?
    && (forall v | 0 <= v < |s.workers| && v != w :: !Live(s.workers[v]))
    && s.f.appleId == s.workers[w].forId
    && (s.workers[w].pc.Harvesting? ==> s.workers[w].pc.id == s.workers[w].forId)
    && (s.f.state.Awaiting2FA? ==> s.workers[w].pc.Parked?)
  }

  ghost predicate SingleFlow(s: Sys) {
    if s.restore.Restoring? then s.f.state.InProgress? && forall w | 0 <= w < |s.workers| :: !Live(s.workers[w])
    else if Busy(s.f.state) then exists w: nat :: Sole(s, w)
    else Idle(s)
  }

  lemma StepSingleFlow(s: Sys, a: Action)
    requires SingleFlow(s) && Enabled(s, a) && !CutsIn(s, a)
    ensures SingleFlow(Next(s, a))
  {
    var t := Next(s, a);
    if !s.restore.Restoring? && Busy(s.f.state) {
      var w: nat :| Sole(s, w);
      if Busy(t.f.state) {
        assert Sole(t, w);
      }
    } else if a.Start? && !s.restore.Restoring? {
      assert Sole(t, |s.workers|);
    }
  }

  lemma {:induction false} AlwaysSingleFlow(s: Sys, acts: seq<Action>, t: Sys)
    requires SingleFlow(s) && Runs(s, acts, t) && Uncut(s, acts)
    ensures SingleFlow(t)
    decreases |acts|
  {
    if acts == [] {
    } else {
      StepSingleFlow(s, acts[0]);
      AlwaysSingleFlow(Next(s, acts[0]), acts[1..], t);
    }
  }

  /** In every state along the run, the account is busy exactly while a flow is on its way. */
  ghost predicate InStep(s: Sys, acts: seq<Action>)
    decreases |acts|
  {
    && (Busy(s.f.state) <==> !Idle(s))
    && (acts != [] && Enabled(s, acts[0]) ==> InStep(Next(s, acts[0]), acts[1..]))
  }

  /**
  State and flows go together along a run exactly when no logout cuts into a flow:
  the first one that does leaves the account logged out with the flow still on its way.
  */
  lemma {:induction false} FlowsInStep(s: Sys, acts: seq<Action>, t: Sys)
    requires SingleFlow(s) && Runs(s, acts, t)
    ensures InStep(s, acts) <==> Uncut(s, acts)
    decreases |acts|
  {
    if acts == [] {
    } else if CutsIn(s, acts[0]) {
      var u := Next(s, acts[0]);
      assert u.f.state.LoggedOut? && u.workers == s.workers && u.restore == s.restore;
      assert !Idle(u);
    } else {
      StepSingleFlow(s, acts[0]);
      FlowsInStep(Next(s, acts[0]), acts[1..], t);
    }
  }

  /**
  Single flow, from the start: the account is busy exactly while a login or restore
  is on its way, all along a run, if and only if no logout cuts into one. Then there
  are never two, and a login that succeeds carries the id it was started for.
  */
  lemma OneFlowAtATime(acts: seq<Action>, s: Sys)
    requires Runs(INIT, acts, s)
    ensures InStep(INIT, acts) <==> Uncut(INIT, acts)
    ensures Uncut(INIT, acts) ==> (Busy(s.f.state) <==> !Idle(s))
    ensures Uncut(INIT, acts) ==> forall v, w | 0 <= v < w < |s.workers| :: !(Live(s.workers[v]) && Live(s.workers[w]))
    ensures Uncut(INIT, acts) && s.restore.Restoring? ==> forall w | 0 <= w < |s.workers| :: !Live(s.workers[w])
    ensures Uncut(INIT, acts) ==> forall w: nat, answers |
      Enabled(s, FinishWorker(w, answers)) && Next(s, FinishWorker(w, answers)).f.state.Authenticated? ::
      && Next(s, FinishWorker(w, answers)).f.appleId == s.workers[w].forId
      && Next(s, FinishWorker(w, answers)).f.tokens.appleId == s.workers[w].forId
  {
    FlowsInStep(INIT, acts, s);
    if Uncut(INIT, acts) {
      AlwaysSingleFlow(INIT, acts, s);
    }
  }

  // ----- whose code a prompt is answered with

  /** A code is taken. */
  predicate Takes(s: Sys, a: Action) { a.Submit? && s.f.state.Awaiting2FA? }

  /** The worker's prompt is over with this step. */
  predicate Over(s: Sys, a: Action, w: nat) {
    a == ResumeWorker(w) || (a == ParkWorker(w) && !Waits(s.f))
  }

  /** And the flow gets password and code. */
  predicate Answered(s: Sys, a: Action, w: nat) {
    Over(s, a, w) && s.f.submitted && !s.f.aborted
  }

  /** A prompt of worker `w`, asked for by action `i` and over with action `j`. */
  ghost predicate Prompt(tr: seq<Sys>, acts: seq<Action>, w: nat, i: nat, j: nat) {
    && Trace(tr, acts) && i <= j < |acts|
    && acts[i] == ParkWorker(w) && Over(tr[j], acts[j], w)
    && forall n | i <= n < j :: !Over(tr[n], acts[n], w)
  }

  /** The code the account holds at `j` was taken at or after `i`. */
  ghost predicate TakenSince(tr: seq<Sys>, acts: seq<Action>, i: nat, j: nat)
    requires Trace(tr, acts) && j < |tr|
  {
    exists n | i <= n < j :: Takes(tr[n], acts[n]) && acts[n].code == tr[j].f.code
  }

  /** Between two states the code is the same, or it was taken there, or there is none. */
  lemma StepCode(s: Sys, a: Action)
    requires Enabled(s, a)
    ensures var t := Next(s, a);
      t.f.submitted ==> if Takes(s, a) then t.f.code == a.code else s.f.submitted && t.f.code == s.f.code
  {
  }

  lemma {:induction false} CodeSince(tr: seq<Sys>, acts: seq<Action>, i: nat, j: nat)
    requires Trace(tr, acts) && i <= j < |tr| && tr[j].f.submitted
    ensures TakenSince(tr, acts, i, j) || (tr[i].f.submitted && tr[i].f.code == tr[j].f.code)
    decreases j
  {
    hide Next, Enabled;
    if i == j {
    } else {
      var n := j - 1;
      assert tr[n + 1] == Next(tr[n], acts[n]);
      StepCode(tr[n], acts[n]);
      if !Takes(tr[n], acts[n]) {
        CodeSince(tr, acts, i, n);
      }
    }
  }

  /**
  Whatever else goes on, a prompt that is answered is answered with a code that was
  taken during the prompt if and only if none was there when it was asked for; one
  that was there is used again.
  */
  lemma PromptCode(tr: seq<Sys>, acts: seq<Action>, w: nat, i: nat, j: nat)
    requires Prompt(tr, acts, w, i, j) && Answered(tr[j], acts[j], w)
    ensures TakenSince(tr, acts, i, j) <==> !tr[i].f.submitted
    ensures tr[i].f.submitted ==> j == i
  {
    hide Next, Enabled;
    assert tr[i].f.submitted ==> Over(tr[i], acts[i], w);
    CodeSince(tr, acts, i, j);
  }

  /** Worker `w` got a code before state `n`. */
  ghost predicate HadCode(tr: seq<Sys>, acts: seq<Action>, n: nat, w: nat)
    requires |tr| == |acts| + 1 && n < |tr|
  {
    exists h | 0 <= h < n :: Answered(tr[h], acts[h], w)
  }

  /** What the flow on its way has to do with the code the account holds. */
  ghost predicate OwnCode(tr: seq<Sys>, acts: seq<Action>, n: nat, w: nat)
    requires |tr| == |acts| + 1 && n < |tr|
  {
    var s := tr[n];
    && (w >= |s.workers| ==> !HadCode(tr, acts, n, w))
    && (w < |s.workers| && Live(s.workers[w]) && !s.f.aborted ==>
          if s.workers[w].pc.Parked? then !HadCode(tr, acts, n, w)
          else s.f.submitted <==> HadCode(tr, acts, n, w))
  }

  lemma StepOwnCode(tr: seq<Sys>, acts: seq<Action>, n: nat, w: nat)
    requires Trace(tr, acts) && n < |acts|
    requires SingleFlow(tr[n]) && !CutsIn(tr[n], acts[n])
    requires OwnCode(tr, acts, n, w)
    ensures OwnCode(tr, acts, n + 1, w)
  {
    var s, a, t := tr[n], acts[n], tr[n + 1];
    assert Enabled(s, a) && t == Next(s, a);
    assert HadCode(tr, acts, n + 1, w) <==> HadCode(tr, acts, n, w) || Answered(s, a, w);
  }

  /**
  As long as no logout cuts into a flow, a prompt is answered with a code taken during
  the prompt if and only if it is the first of its flow to be answered: every later
  one gets the first one's code again.
  */
  lemma FirstPromptIsFresh(tr: seq<Sys>, acts: seq<Action>, w: nat, i: nat, j: nat)
    requires Prompt(tr, acts, w, i, j) && Answered(tr[j], acts[j], w)
    requires forall n | 0 <= n < j :: !CutsIn(tr[n], acts[n])
    ensures TakenSince(tr, acts, i, j) <==> forall h | 0 <= h < i :: !Answered(tr[h], acts[h], w)
  {
    PromptCode(tr, acts, w, i, j);
    KeepsOwnCode(tr, acts, i, w);
  }

  lemma {:induction false} KeepsOwnCode(tr: seq<Sys>, acts: seq<Action>, n: nat, w: nat)
    requires Trace(tr, acts) && n < |tr|
    requires forall m | 0 <= m < n :: !CutsIn(tr[m], acts[m])
    ensures SingleFlow(tr[n]) && OwnCode(tr, acts, n, w)
  {
    if n == 0 {
    } else {
      KeepsOwnCode(tr, acts, n - 1, w);
      assert tr[n - 1 + 1] == Next(tr[n - 1], acts[n - 1]);
      StepSingleFlow(tr[n - 1], acts[n - 1]);
      StepOwnCode(tr, acts, n - 1, w);
    }
  }

  // ----- a login and a restore that succeed

  lemma Then(s: Sys, acts: seq<Action>, t: Sys, a: Action)
    requires Runs(s, acts, t) && Enabled(t, a)
    ensures Runs(s, acts + [a], Next(t, a))
  {
    hide Runs, Enabled, Next;
    OneStep(t, a);
    RunsOn(s, acts, t, [a], Next(t, a));
  }

  /**
  Whenever no flow is under way, a login for any id can go through a 2FA prompt, which
  gets the code submitted to it, to tokens that are the answers, under that id.
  */
  lemma LogsIn(s: Sys, id: string, password: string, code: string, answers: Answers) returns (acts: seq<Action>, t: Sys)
    requires !Busy(s.f.state) && Complete(answers)
    ensures Runs(s, acts, t) && t.f.state.Authenticated? && t.f.appleId == id && Holds(t.f.tokens, answers)
    ensures acts == [Start(id, password), ParkWorker(|s.workers|), Submit(code), ResumeWorker(|s.workers|),
      ReadId(|s.workers|), FinishWorker(|s.workers|, answers)]
  {
    var w := |s.workers|;
    var s1 := Next(s, Start(id, password));
    var s2 := Next(s1, ParkWorker(w));
    var s3 := Next(s2, Submit(code));
    var s4 := Next(s3, ResumeWorker(w));
    assert s4.f.password == password && s4.f.code == code && s4.f.submitted && !s4.f.aborted;
    var s5 := Next(s4, ReadId(w));
    t := Next(s5, FinishWorker(w, answers));
    hide Runs, Next;
    OneStep(s, Start(id, password));
    acts := [Start(id, password)];
    Then(s, acts, s1, ParkWorker(w));
    Then(s, acts + [ParkWorker(w)], s2, Submit(code));
    Then(s, acts + [ParkWorker(w)] + [Submit(code)], s3, ResumeWorker(w));
    Then(s, acts + [ParkWorker(w)] + [Submit(code)] + [ResumeWorker(w)], s4, ReadId(w));
    Then(s, acts + [ParkWorker(w)] + [Submit(code)] + [ResumeWorker(w)] + [ReadId(w)], s5, FinishWorker(w, answers));
    acts := acts + [ParkWorker(w)] + [Submit(code)] + [ResumeWorker(w)] + [ReadId(w)] + [FinishWorker(w, answers)];
  }

  /** And whenever the account is logged out and no restore under way, one can succeed, under the configured name. */
  lemma Restores(s: Sys, name: string, answers: Answers) returns (acts: seq<Action>, t: Sys)
    requires s.f.state.LoggedOut? && s.restore.Free? && Complete(answers)
    ensures Runs(s, acts, t) && t.f.state.Authenticated? && t.f.appleId == name && Holds(t.f.tokens, answers)
    ensures acts == [Gate, TryRestore, FinishRestore(name, answers)]
  {
    var s1 := Next(s, Gate);
    var s2 := Next(s1, TryRestore);
    t := Next(s2, FinishRestore(name, answers));
    hide Runs, Next;
    OneStep(s, Gate);
    Then(s, [Gate], s1, TryRestore);
    Then(s, [Gate] + [TryRestore], s2, FinishRestore(name, answers));
    acts := [Gate] + [TryRestore] + [FinishRestore(name, answers)];
  }

  // ----- what logout does not promise

  /** Neither a new login nor a restore that takes hold. */
  predicate StartsFlow(a: Action) { a.Start? || a.TryRestore? }

  /** Whatever happens short of a new flow, the account stays logged out. */
  ghost predicate StaysOut(s: Sys) {
    forall acts, t | Runs(s, acts, t) && (forall a | a in acts :: !StartsFlow(a)) :: t.f.state.LoggedOut?
  }

  lemma {:induction false} IdleStaysOut(s: Sys, acts: seq<Action>, t: Sys)
    requires Idle(s) && s.f.state.LoggedOut? && Runs(s, acts, t)
    requires forall a | a in acts :: !StartsFlow(a)
    ensures t.f.state.LoggedOut?
    decreases |acts|
  {
    if acts == [] {
    } else {
      assert acts[0] in acts;
      IdleStaysOut(Next(s, acts[0]), acts[1..], t);
    }
  }

  lemma OneStep(s: Sys, a: Action)
    requires Enabled(s, a)
    ensures Runs(s, [a], Next(s, a))
  {
    assert [a][1..] == [];
    assert Runs(Next(s, a), [], Next(s, a));
  }

  /** A logout is final exactly when it finds no flow on its way: a stale worker or restore can undo it. */
  lemma LogoutIsFinalIff(s: Sys)
    requires s.f.state.LoggedOut?
    ensures StaysOut(s) <==> Idle(s)
  {
    if Idle(s) {
      forall acts, t | Runs(s, acts, t) && (forall a | a in acts :: !StartsFlow(a)) ensures t.f.state.LoggedOut? {
        IdleStaysOut(s, acts, t);
      }
    } else {
      var a;
      if s.restore.Restoring? {
        a := FinishRestore("", Answers("1", "2", "3", "4", None));
      } else {
        var w :| 0 <= w < |s.workers| && Live(s.workers[w]);
        match s.workers[w].pc
        case Running => a := FailWorker(w, NoFlow);
        case Parked => a := ResumeWorker(w);
        case Harvesting(_) => a := FinishWorker(w, Answers("", "", "", "", None));
      }
      OneStep(s, a);
      assert !Next(s, a).f.state.LoggedOut?;
    }
  }

  /** A login cut off by a logout can finish under the id of the login that came after it. */
  lemma StaleWorkerTakesNewId(a: string, b: string) returns (acts: seq<Action>, s: Sys)
    ensures Runs(INIT, acts, s)
    ensures s.f.state.Authenticated? && s.f.appleId == b
    ensures s.workers == [Worker(a, Ended), Worker(b, Running)]
  {
    hide Runs;
    var cut := Sys(FRESH, [Worker(a, Running)], Free, 0);
    var begun := CutOff(a, cut);
    var finish := FinishWorker(0, Answers("1", "2", "3", "4", None));
    var t1 := Next(cut, Start(b, "q"));
    var t2 := Next(t1, ReadId(0));
    s := Next(t2, finish);
    OneStep(t2, finish);
    Prepend(t1, ReadId(0), [finish], s);
    Prepend(cut, Start(b, "q"), [ReadId(0)] + [finish], s);
    acts := begun + ([Start(b, "q")] + ([ReadId(0)] + [finish]));
    RunsOn(INIT, begun, cut, [Start(b, "q")] + ([ReadId(0)] + [finish]), s);
  }

  lemma CutOff(a: string, cut: Sys) returns (acts: seq<Action>)
    requires cut == Sys(FRESH, [Worker(a, Running)], Free, 0)
    ensures Runs(INIT, acts, cut)
  {
    hide Runs;
    var s1 := Next(INIT, Start(a, "p"));
    var s2 := Next(s1, Signal);
    assert s1.workers == [Worker(a, Running)];
    assert Next(s2, Clear) == cut;
    OneStep(s2, Clear);
    Prepend(s1, Signal, [Clear], cut);
    Prepend(INIT, Start(a, "p"), [Signal] + [Clear], cut);
    acts := [Start(a, "p")] + ([Signal] + [Clear]);
  }

  lemma {:induction false} RunsOn(s: Sys, acts: seq<Action>, t: Sys, more: seq<Action>, u: Sys)
    requires Runs(s, acts, t) && Runs(t, more, u)
    ensures Runs(s, acts + more, u)
    decreases |acts|
  {
    hide Enabled, Next;
    if acts == [] {
      assert acts + more == more;
    } else {
      RunsOn(Next(s, acts[0]), acts[1..], t, more, u);
      assert (acts + more)[1..] == acts[1..] + more;
    }
  }

  lemma Prepend(s: Sys, a: Action, acts: seq<Action>, t: Sys)
    requires Enabled(s, a) && Runs(Next(s, a), acts, t)
    ensures Runs(s, [a] + acts, t)
  {
    assert ([a] + acts)[1..] == acts;
  }
}
