/**
 One worker goroutine of internal/scheduler/scheduler.go as a small-step machine. Every outcome of
 an external call (workspace, hook, provider, prompt) is a separate event; `trace` lists what the
 worker did to the outside world and what was put into its channel.
 */
module Worker {
  import opened Session

  /** A queued message. `opening` is the filled opening template the job would start a session with. */
  datatype Job = Job(id: nat, key: Key, opening: string, text: string)

  datatype Prompt = Prompt(job: Job, body: string, ok: bool)

  datatype Act =
    | Sent(job: Job)
    | WsCreated
    | WsCleaned
    | ProvStarted(job: Job)
    | ProvClosed
    | TokenIn(token: string)
    | TokenOut(token: string)
    | Prompted(prompt: Prompt)
    | Done(job: Job, ok: bool)

  /** Where the goroutine stands; a job shown here is the one in hand. */
  datatype Pc =
    | Select
    | OpenWs(job: Job)
    | PreCmd(job: Job)
    | Mint(job: Job)
    | Start(job: Job, token: string)
    | ApplyCtx(job: Job)
    | Ask(job: Job)
    | Reply(job: Job, ok: bool)
    | Unreg
    | Unmap
    | Gone
  {
    /** The run loop has returned: only the deferred calls are left. */
    predicate Leaving() {
      Unreg? || Unmap? || Gone?
    }

    function InHand(): seq<Job> {
      match this
      case Select | Unreg | Unmap | Gone => []
      case OpenWs(j) => [j]
      case PreCmd(j) => [j]
      case Mint(j) => [j]
      case Start(j, _) => [j]
      case ApplyCtx(j) => [j]
      case Ask(j) => [j]
      case Reply(j, _) => [j]
    }
  }

  datatype State = State(
    key: Key,
    queue: seq<Job>,
    pc: Pc,
    ws: bool,          // ws != ""
    prov: bool,        // prov != nil
    idle: bool,        // the idle timer is armed
    token: string,     // contextBearerToken
    body: string,      // sessionBootstrapBody
    bootDone: bool,    // sessionBootstrapDone
    trace: seq<Act>)

  function NewWorker(key: Key): State {
    State(key, [], Select, false, false, false, "", "", false, [])
  }

  datatype Event =
    | Recv
    | WsOk
    | WsErr
    | PreOk
    | PreErr
    | Minted(token: string)   // the empty token: context API off
    | StartOk
    | StartErr
    | CtxOk
    | CtxErr
    | Answered(ok: bool)
    | Replied
    | IdleFire
    | Unregister
    | Remove

  predicate Enabled(w: State, e: Event) {
    match e
    case Recv => w.pc.Select? && w.queue != []
    case WsOk | WsErr => w.pc.OpenWs?
    case PreOk | PreErr => w.pc.PreCmd?
    case Minted(_) => w.pc.Mint?
    case StartOk | StartErr => w.pc.Start?
    case CtxOk | CtxErr => w.pc.ApplyCtx?
    case Answered(_) => w.pc.Ask?
    case Replied => w.pc.Reply?
    case IdleFire => w.pc.Select? && w.idle
    case Unregister => w.pc.Unreg?
    case Remove => w.pc.Unmap?
  }

  function Log(w: State, a: Act): State {
    w.(trace := w.trace + [a])
  }

  function LogIf(c: bool, w: State, a: Act): State {
    if c then Log(w, a) else w
  }

  /** job.Done followed by resetIdle and the next loop iteration. */
  function Finish(w: State, job: Job, ok: bool): State {
    Log(w, Done(job, ok)).(pc := Select, idle := true)
  }

  function AfterSetup(w: State, job: Job): Pc {
    if w.ws then ApplyCtx(job) else Ask(job)
  }

  predicate SendsOpening(w: State) {
    w.body != "" && !w.bootDone
  }

  function Step(w: State, e: Event): State
    requires Enabled(w, e)
  {
    match e
    case Recv =>
      var j := w.queue[0];
      w.(queue := w.queue[1..], idle := false, pc := if w.prov then AfterSetup(w, j) else OpenWs(j))
    case WsOk => Log(w, WsCreated).(ws := true, pc := PreCmd(w.pc.job))
    case WsErr => Finish(w, w.pc.job, false)
    case PreOk => w.(pc := Mint(w.pc.job))
    case PreErr => Finish(Log(w, WsCleaned).(ws := false), w.pc.job, false)
    case Minted(t) => LogIf(t != "", w, TokenIn(t)).(pc := Start(w.pc.job, t))
    case StartOk =>
      Log(w, ProvStarted(w.pc.job)).(prov := true, token := w.pc.token, body := w.pc.job.opening,
                                     bootDone := false, pc := AfterSetup(w, w.pc.job))
    case StartErr =>
      Finish(Log(LogIf(w.pc.token != "", w, TokenOut(w.pc.token)), WsCleaned).(ws := false), w.pc.job, false)
    case CtxOk => w.(pc := Ask(w.pc.job))
    case CtxErr => Finish(w, w.pc.job, false)
    case Answered(ok) =>
      var b := if SendsOpening(w) then w.body else w.pc.job.text;
      Log(w, Prompted(Prompt(w.pc.job, b, ok))).(bootDone := w.bootDone || (SendsOpening(w) && ok), pc := Reply(w.pc.job, ok))
    case Replied => Finish(w, w.pc.job, w.pc.ok)
    case IdleFire =>
      LogIf(w.ws, LogIf(w.prov, w, ProvClosed), WsCleaned).(prov := false, ws := false, idle := false, pc := Unreg)
    case Unregister => LogIf(w.token != "", w, TokenOut(w.token)).(pc := Unmap)
    case Remove => w.(pc := Gone)
  }

  /** What the event does to the shared registry. */
  function RegStep(w: State, e: Event, reg: map<string, Key>): map<string, Key>
    requires Enabled(w, e)
  {
    match e
    case Minted(t) => Registered(reg, t, w.key)
    case StartErr => Unregistered(reg, w.pc.token)
    case Unregister => Unregistered(reg, w.token)
    case _ => reg
  }

  /** A sender appends to the worker's channel; this is independent of where the goroutine stands. */
  function Accept(w: State, j: Job): State {
    Log(w, Sent(j)).(queue := w.queue + [j])
  }

  // ---- what a trace adds up to ----

  /** Messages put in the channel, jobs finished, prompts and sessions in order; resources counted. */
  datatype Ledger = Ledger(
    sents: seq<Job>,
    dones: seq<Job>,
    wins: seq<Job>,              // those reported as a success
    prompts: seq<Prompt>,
    starts: seq<Job>,
    ws: int,                     // workspaces returned minus cleanups
    prov: int,                   // providers started minus closed
    tokensIn: multiset<string>,
    tokensOut: multiset<string>)

  function Book(l: Ledger, a: Act): Ledger {
    match a
    case Sent(j) => l.(sents := l.sents + [j])
    case WsCreated => l.(ws := l.ws + 1)
    case WsCleaned => l.(ws := l.ws - 1)
    case ProvStarted(j) => l.(starts := l.starts + [j], prov := l.prov + 1)
    case ProvClosed => l.(prov := l.prov - 1)
    case TokenIn(t) => l.(tokensIn := l.tokensIn + multiset{t})
    case TokenOut(t) => l.(tokensOut := l.tokensOut + multiset{t})
    case Prompted(p) => l.(prompts := l.prompts + [p])
    case Done(j, ok) => l.(dones := l.dones + [j], wins := if ok then l.wins + [j] else l.wins)
  }

  function Read(t: seq<Act>): Ledger {
    if t == [] then Ledger([], [], [], [], [], 0, 0, multiset{}, multiset{})
    else Book(Read(t[..|t| - 1]), t[|t| - 1])
  }

  /** The token the worker currently has in the registry; empty for none. */
  function LiveToken(w: State): string {
    match w.pc
    case Start(_, t) => t
    case Unmap | Gone => ""
    case _ => w.token
  }

  function TokenBag(t: string): multiset<string> {
    if t == "" then multiset{} else multiset{t}
  }

  function One(b: bool): int {
    if b then 1 else 0
  }

  // ---- what a trace promises ----

  predicate NoneOk(ps: seq<Prompt>, n: nat)
    requires n <= |ps|
  {
    forall k :: 0 <= k < n ==> !ps[k].ok
  }

  /** Every prompt is the session's opening until one has succeeded, and the job's own text after that. */
  predicate OpeningFirst(ps: seq<Prompt>, opening: string) {
    forall i :: 0 <= i < |ps| ==>
      ps[i].body == if opening != "" && NoneOk(ps, i) then opening else ps[i].job.text
  }

  function PromptJobs(ps: seq<Prompt>): seq<Job> {
    if ps == [] then [] else PromptJobs(ps[..|ps| - 1]) + [ps[|ps| - 1].job]
  }

  /** `a` is obtained from `b` by leaving out elements. */
  predicate Subsequence<T(==)>(a: seq<T>, b: seq<T>) {
    a == [] || (b != [] && ((a[|a| - 1] == b[|b| - 1] && Subsequence(a[..|a| - 1], b[..|b| - 1]))
                            || Subsequence(a, b[..|b| - 1])))
  }

  // ---- the worker invariant, one conjunct a concern ----

  predicate LoopShape(w: State) {
    && (w.pc.Select? ==> w.prov == w.ws)
    && (w.pc.OpenWs? ==> !w.prov && !w.ws)
    && (w.pc.PreCmd? || w.pc.Mint? || w.pc.Start? ==> !w.prov && w.ws)
    && (w.pc.ApplyCtx? || w.pc.Ask? || w.pc.Reply? ==> w.prov && w.ws)
    && (w.pc.Leaving() ==> !w.prov && !w.ws)
    && (w.idle ==> w.pc.Select?)
  }

  predicate Balanced(w: State, l: Ledger) {
    && l.ws == One(w.ws)
    && l.prov == One(w.prov)
  }

  predicate TokensBalanced(w: State, l: Ledger) {
    l.tokensIn == l.tokensOut + TokenBag(LiveToken(w))
  }

  predicate ChannelOrder(w: State, l: Ledger) {
    && l.sents == l.dones + w.pc.InHand() + w.queue
    && (w.idle || w.pc.Leaving() ==> l.dones != [])
  }

  predicate OneSession(w: State, l: Ledger) {
    && |l.starts| <= 1
    && (w.prov ==> l.starts != [])
    && (!w.prov && !w.pc.Leaving() ==> l.starts == [] && w.token == "")
    && w.body == (if l.starts == [] then "" else l.starts[0].opening)
    && (l.starts == [] ==> l.prompts == [])
  }

  predicate PromptShape(w: State, l: Ledger) {
    && OpeningFirst(l.prompts, w.body)
    && (w.bootDone <==> w.body != "" && !NoneOk(l.prompts, |l.prompts|))
  }

  predicate PromptOrder(w: State, l: Ledger) {
    Subsequence(PromptJobs(l.prompts), if w.pc.Reply? then l.dones + [w.pc.job] else l.dones)
  }

  /** The jobs whose prompts succeeded, in order. */
  function Winners(ps: seq<Prompt>): seq<Job> {
    if ps == [] then []
    else
      var p := ps[|ps| - 1];
      Winners(ps[..|ps| - 1]) + if p.ok then [p.job] else []
  }

  /** The job in hand, if its prompt has just succeeded. */
  function WinInHand(w: State): seq<Job> {
    if w.pc.Reply? && w.pc.ok then [w.pc.job] else []
  }

  /** What is reported as a success, or about to be, is exactly what was answered. */
  predicate Truthful(w: State, l: Ledger) {
    Winners(l.prompts) == l.wins + WinInHand(w)
  }

  predicate InvL(w: State, l: Ledger) {
    && LoopShape(w) && Balanced(w, l) && TokensBalanced(w, l) && ChannelOrder(w, l) && OneSession(w, l)
    && PromptShape(w, l) && PromptOrder(w, l) && Truthful(w, l)
  }

  predicate Inv(w: State) {
    InvL(w, Read(w.trace))
  }

  lemma NewWorkerInv(key: Key)
    ensures Inv(NewWorker(key))
  {
  }

  lemma ReadPush(t: seq<Act>, a: Act)
    ensures Read(t + [a]) == Book(Read(t), a)
  {
    assert (t + [a])[..|t|] == t;
  }

  lemma WinnersPush(ps: seq<Prompt>, p: Prompt)
    ensures Winners(ps + [p]) == Winners(ps) + if p.ok then [p.job] else []
  {
    assert (ps + [p])[..|ps|] == ps;
  }

  lemma SubsequenceGrow<T>(a: seq<T>, b: seq<T>, x: T)
    requires Subsequence(a, b)
    ensures Subsequence(a, b + [x]) && Subsequence(a + [x], b + [x])
  {
    assert (b + [x])[..|b|] == b && (a + [x])[..|a|] == a;
  }

  lemma PromptJobsPush(ps: seq<Prompt>, p: Prompt)
    ensures PromptJobs(ps + [p]) == PromptJobs(ps) + [p.job]
  {
    assert (ps + [p])[..|ps|] == ps;
  }
}
