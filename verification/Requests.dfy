/** The window's request lifecycles: which reply may still be applied, and what may change meanwhile. */
module Requests {
  import opened Prelude
  import opened Codecs
  import opened RecoveryForm

  datatype Request<T> = Request(id: U64, target: T)

  // -- One pending request ---------------------------------------------------------------------------

  datatype PendingState<T> = PendingState(lastId: U64, current: Option<Request<T>>)

  /** Identifiers are never reused; the program stops rather than let them run out. */
  predicate CanIssue<T>(p: PendingState<T>) { p.lastId < U64_LIMIT - 1 }

  function Issued<T>(p: PendingState<T>, target: T): Request<T>
    requires CanIssue(p)
  {
    Request(p.lastId + 1, target)
  }

  /** Whatever was pending is forgotten, even if the new request cannot be sent. */
  function Submitted<T>(p: PendingState<T>, target: T, sent: bool): PendingState<T>
    requires CanIssue(p)
  {
    PendingState(p.lastId + 1, if sent then Some(Issued(p, target)) else None)
  }

  function Invalidated<T>(p: PendingState<T>): PendingState<T> { p.(current := None) }

  function Replied<T(==)>(p: PendingState<T>, r: Request<T>): PendingState<T> {
    if p.current == Some(r) then Invalidated(p) else p
  }

  class Pending<T(==)> {
    var lastId: U64
    var current: Option<Request<T>>

    function View(): PendingState<T>
      reads this
    {
      PendingState(lastId, current)
    }

    constructor ()
      ensures View() == PendingState(0, None)
    {
      lastId, current := 0, None;
    }

    method Invalidate()
      modifies this
      ensures View() == Invalidated(old(View())) && current.None? && lastId == old(lastId)
    {
      current := None;
    }

    /** `sent` is what the queue answers. */
    method Submit(target: T, sent: bool) returns (r: Option<Request<T>>)
      requires CanIssue(View())
      modifies this
      ensures View() == Submitted(old(View()), target, sent)
      ensures r == current && r == (if sent then Some(Request(old(lastId) + 1, target)) else None)
      ensures lastId == old(lastId) + 1
    {
      Invalidate();
      lastId := lastId + 1;
      var request := Request(lastId, target);
      if !sent { return None; }
      current := Some(request);
      return current;
    }

    method Finish(request: Request<T>) returns (ok: bool)
      modifies this
      ensures ok <==> old(current) == Some(request)
      ensures View() == Replied(old(View()), request)
      ensures lastId == old(lastId) && current == if ok then None else old(current)
    {
      if current != Some(request) { return false; }
      current := None;
      return true;
    }
  }

  datatype Event<T> = Submit(target: T, sent: bool) | Invalidate | Finish(request: Request<T>)

  predicate Possible<T>(p: PendingState<T>, e: Event<T>) { e.Submit? ==> CanIssue(p) }

  function Next<T(==)>(p: PendingState<T>, e: Event<T>): PendingState<T>
    requires Possible(p, e)
  {
    match e
    case Submit(target, sent) => Submitted(p, target, sent)
    case Invalidate => Invalidated(p)
    case Finish(r) => Replied(p, r)
  }

  ghost predicate Run<T>(events: seq<Event<T>>, states: seq<PendingState<T>>) {
    && |states| == |events| + 1 && states[0] == PendingState(0, None)
    && forall k :: 0 <= k < |events| ==> Possible(states[k], events[k]) && states[k + 1] == Next(states[k], events[k])
  }

  /** The `k`th event completes a request. */
  predicate Completes<T(==)>(events: seq<Event<T>>, states: seq<PendingState<T>>, k: nat)
    requires k < |events| && k < |states|
  {
    events[k].Finish? && states[k].current == Some(events[k].request)
  }

  /** Event `i` is the accepted submission of `r`, and up to `k` it has been neither replaced nor invalidated nor completed. */
  predicate StandsFrom<T(==)>(events: seq<Event<T>>, states: seq<PendingState<T>>, i: nat, k: nat, r: Request<T>)
    requires |states| == |events| + 1
  {
    && i < k <= |events|
    && events[i] == Event.Submit(r.target, true) && r.id == states[i].lastId + 1
    && forall j :: i < j < k ==> events[j].Finish? && !Completes(events, states, j)
  }

  ghost predicate Stands<T>(events: seq<Event<T>>, states: seq<PendingState<T>>, k: nat, r: Request<T>)
    requires |states| == |events| + 1
  {
    exists i: nat :: StandsFrom(events, states, i, k, r)
  }

  /** A reply is applied exactly if it answers the latest accepted request and nothing has happened to that since. */
  lemma {:induction false} CurrentIsLatest<T>(events: seq<Event<T>>, states: seq<PendingState<T>>, k: nat,
                                              r: Request<T>)
    requires Run(events, states) && k < |states|
    ensures states[k].current == Some(r) <==> Stands(events, states, k, r)
  {
    if k > 0 {
      CurrentIsLatest(events, states, k - 1, r);
      var e := events[k - 1];
      if e.Finish? {
        if Stands(events, states, k, r) {
          var i: nat :| StandsFrom(events, states, i, k, r);
          assert i < k - 1 && StandsFrom(events, states, i, k - 1, r);
        }
        if states[k].current == Some(r) {
          var i: nat :| StandsFrom(events, states, i, k - 1, r);
          assert !Completes(events, states, k - 1);
          assert StandsFrom(events, states, i, k, r);
        }
      } else {
        if Stands(events, states, k, r) {
          var i: nat :| StandsFrom(events, states, i, k, r);
          assert i == k - 1;
        }
        if states[k].current == Some(r) {
          assert StandsFrom(events, states, k - 1, k, r);
        }
      }
    }
  }

  lemma {:induction false} IdsGrow<T>(events: seq<Event<T>>, states: seq<PendingState<T>>, i: nat, k: nat)
    requires Run(events, states) && i <= k < |states|
    ensures states[i].lastId <= states[k].lastId
    ensures states[k].current.Some? ==> states[k].current.value.id <= states[k].lastId
    ensures states[i].current.None? && states[k].current.Some? ==> states[k].current.value.id > states[i].lastId
    decreases k
  {
    if k > 0 {
      if i < k {
        IdsGrow(events, states, i, k - 1);
      } else {
        IdsGrow(events, states, k - 1, k - 1);
      }
    }
  }

  /** Identifiers strictly increase from one submission to the next, sent or not. */
  lemma IdsIncrease<T>(events: seq<Event<T>>, states: seq<PendingState<T>>, i: nat, k: nat)
    requires Run(events, states) && i < k < |events| && events[i].Submit? && events[k].Submit?
    ensures Issued(states[i], events[i].target).id < Issued(states[k], events[k].target).id
  {
    IdsGrow(events, states, i + 1, k);
  }

  /** No request is completed twice, whatever replies arrive in whatever order. */
  lemma CompletesOnce<T>(events: seq<Event<T>>, states: seq<PendingState<T>>, i: nat, k: nat)
    requires Run(events, states) && i < |events| && k < |events|
    requires Completes(events, states, i) && Completes(events, states, k) && events[i].request == events[k].request
    ensures i == k
  {
    if i < k {
      IdsGrow(events, states, 0, i);
      IdsGrow(events, states, i + 1, k);
    } else if k < i {
      IdsGrow(events, states, 0, k);
      IdsGrow(events, states, k + 1, i);
    }
  }

  // -- Dialogs -------------------------------------------------------------------------------------------

  datatype ModalKind = Closed | Install | Edit | Remove | Processes | Warnings

  datatype ModalTarget = ModalTarget(kind: ModalKind, service: string)

  datatype SubmitError = Busy | Inactive | NotSent

  datatype Modal = Modal(kind: ModalKind, generation: U64, pending: PendingState<ModalTarget>)

  predicate IsMutation(kind: ModalKind) { kind == Install || kind == Edit }

  class ModalState {
    var kind: ModalKind
    var generation: U64
    const pending: Pending<ModalTarget>

    function View(): Modal
      reads this, pending
    {
      Modal(kind, generation, pending.View())
    }

    constructor ()
      ensures fresh(pending) && View() == Modal(Closed, 0, PendingState(0, None))
    {
      kind, generation := Closed, 0;
      pending := new Pending();
    }

    method Replace(next: ModalKind) returns (ok: bool)
      requires generation < U64_LIMIT - 1
      modifies this, pending
      ensures ok <==> !(old(pending.current).Some? && IsMutation(old(kind)))
      ensures View() == if ok then Modal(next, old(generation) + 1, Invalidated(old(pending.View()))) else old(View())
    {
      if pending.current.Some? && (kind == Install || kind == Edit) { return false; }
      pending.Invalidate();
      generation := generation + 1;
      kind := next;
      return true;
    }

    method Submit(service: string, sent: bool) returns (r: Result<Request<ModalTarget>, SubmitError>)
      requires CanIssue(pending.View())
      modifies this, pending
      ensures r == Err(Busy) <==> old(pending.current).Some?
      ensures r == Err(Inactive) <==> old(pending.current).None? && old(kind) !in {Install, Edit, Processes}
      ensures r in {Err(Busy), Err(Inactive)} ==> View() == old(View())
      ensures r !in {Err(Busy), Err(Inactive)} ==>
                && View() == old(View()).(pending := Submitted(old(pending.View()), ModalTarget(old(kind), service), sent))
                && (if sent then pending.current.Some? && r == Ok(pending.current.value) else r == Err(NotSent))
    {
      if pending.current.Some? { return Err(Busy); }
      if kind != Install && kind != Edit && kind != Processes { return Err(Inactive); }
      var request := pending.Submit(ModalTarget(kind, service), sent);
      return if request.Some? then Ok(request.value) else Err(NotSent);
    }

    method Finish(request: Request<ModalTarget>) returns (ok: bool)
      modifies pending
      ensures ok <==> old(pending.current) == Some(request)
      ensures View() == old(View()).(pending := Replied(old(pending.View()), request))
    {
      ok := pending.Finish(request);
    }
  }

  datatype ModalEvent =
    | Replace(kind: ModalKind)
    | SubmitModal(service: string, sent: bool)
    | FinishModal(request: Request<ModalTarget>)

  predicate ModalPossible(m: Modal, e: ModalEvent) {
    match e
    case Replace(_) => m.generation < U64_LIMIT - 1
    case SubmitModal(_, _) => CanIssue(m.pending)
    case FinishModal(_) => true
  }

  function ModalNext(m: Modal, e: ModalEvent): Modal
    requires ModalPossible(m, e)
  {
    match e
    case Replace(kind) =>
      if m.pending.current.Some? && IsMutation(m.kind) then m
      else Modal(kind, m.generation + 1, Invalidated(m.pending))
    case SubmitModal(service, sent) =>
      if m.pending.current.Some? || m.kind !in {Install, Edit, Processes} then m
      else m.(pending := Submitted(m.pending, ModalTarget(m.kind, service), sent))
    case FinishModal(r) => m.(pending := Replied(m.pending, r))
  }

  ghost predicate ModalRun(events: seq<ModalEvent>, states: seq<Modal>) {
    && |states| == |events| + 1 && states[0] == Modal(Closed, 0, PendingState(0, None))
    && forall k :: 0 <= k < |events| ==> ModalPossible(states[k], events[k]) && states[k + 1] == ModalNext(states[k], events[k])
  }

  lemma {:induction false} ModalTargetRight(events: seq<ModalEvent>, states: seq<Modal>, k: nat)
    requires ModalRun(events, states) && k < |states|
    ensures states[k].pending.current.Some? ==> states[k].pending.current.value.target.kind == states[k].kind
  {
    if k > 0 { ModalTargetRight(events, states, k - 1); }
  }

  /** An install or edit that has been accepted keeps its dialog: whatever is clicked and whatever other replies
      arrive, neither the dialog nor the request changes until the reply to that request. */
  lemma {:induction false} MutationKeepsDialog(events: seq<ModalEvent>, states: seq<Modal>, k: nat, l: nat)
    requires ModalRun(events, states) && k <= l < |states|
    requires IsMutation(states[k].kind) && states[k].pending.current.Some?
    requires forall j :: k <= j < l ==> events[j] != FinishModal(states[k].pending.current.value)
    ensures states[l] == states[k] && states[l].pending.current.value.target.kind == states[l].kind
    decreases l - k
  {
    if k < l {
      MutationKeepsDialog(events, states, k, l - 1);
    } else {
      ModalTargetRight(events, states, k);
    }
  }

  // -- The recovery editor ------------------------------------------------------------------------------------

  datatype Work = Read | Save

  datatype RecoveryTarget = RecoveryTarget(service: string, generation: U64, work: Work)

  datatype Editor = Editor(draft: Option<Form>, service: Option<string>, generation: U64, pending: PendingState<RecoveryTarget>)

  class RecoveryEditor {
    var draft: Option<Form>
    var service: Option<string>
    var generation: U64
    const pending: Pending<RecoveryTarget>

    function View(): Editor
      reads this, pending
    {
      Editor(draft, service, generation, pending.View())
    }

    constructor ()
      ensures fresh(pending) && View() == Editor(None, None, 0, PendingState(0, None))
    {
      draft, service, generation := None, None, 0;
      pending := new Pending();
    }

    method Leave()
      modifies this, pending
      ensures View() == Left(old(View()))
      ensures service.None? && pending.current.None? && draft == old(draft) && generation == old(generation)
    {
      pending.Invalidate();
      service := None;
    }

    method Activate(name: string)
      requires generation < U64_LIMIT - 1
      modifies this, pending
      ensures View() == Activated(old(View()), name)
      ensures service == Some(name) && pending.current.None? && generation == old(generation) + 1
      ensures draft == if old(draft).Some? && old(draft).value.service != name then None else old(draft)
    {
      Leave();
      generation := generation + 1;
      if draft.Some? && draft.value.service != name { draft := None; }
      service := Some(name);
    }

    /** Only an active editor that is not waiting for a reply hands out its draft, but that one whole: whoever gets it
        may leave any form. */
    method EditDraft(form: Form)
      modifies this
      ensures View() == Redrafted(old(View()), form)
      ensures draft == if service.Some? && pending.current.None? && old(draft).Some? then Some(form) else old(draft)
    {
      if service.None? || pending.current.Some? { return; }
      if draft.Some? { draft := Some(form); }
    }

    method Submit(work: Work, sent: bool) returns (r: Result<Request<RecoveryTarget>, SubmitError>)
      requires CanIssue(pending.View())
      modifies pending
      ensures View() == Asked(old(View()), work, sent)
      ensures r == Err(Busy) <==> old(pending.current).Some?
      ensures r == Err(Inactive) <==> old(pending.current).None? && service.None?
      ensures r == Err(NotSent) <==> old(pending.current).None? && service.Some? && !sent
      ensures r.Ok? ==> pending.current == Some(r.value)
                        && r.value.target == RecoveryTarget(service.value, generation, work)
    {
      if pending.current.Some? { return Err(Busy); }
      if service.None? { return Err(Inactive); }
      var request := pending.Submit(RecoveryTarget(service.value, generation, work), sent);
      return if request.Some? then Ok(request.value) else Err(NotSent);
    }

    method Finish(request: Request<RecoveryTarget>) returns (ok: bool)
      modifies pending
      ensures ok <==> old(pending.current) == Some(request)
      ensures View() == old(View()).(pending := Replied(old(pending.View()), request))
    {
      ok := pending.Finish(request);
    }

    /** A reply to a reading: `None` if it is stale, otherwise whether it could be shown. */
    method Loaded(request: Request<RecoveryTarget>, form: Option<Form>) returns (r: Option<bool>)
      modifies this, pending
      ensures r.Some? <==> old(pending.current) == Some(request)
      ensures View() == Answered(old(View()), request, form)
      ensures r == Some(true) ==> draft == form && form.Some? && form.value.service == request.target.service
      ensures r != Some(true) ==> draft == old(draft)
    {
      var ok := Finish(request);
      if !ok { return None; }
      if form.Some? && form.value.service == request.target.service {
        draft := form;
        return Some(true);
      }
      return Some(false);
    }
  }

  function Left(s: Editor): Editor { s.(service := None, pending := Invalidated(s.pending)) }

  function Activated(s: Editor, name: string): Editor
    requires s.generation < U64_LIMIT - 1
  {
    Left(s).(generation := s.generation + 1, service := Some(name),
             draft := if s.draft.Some? && s.draft.value.service != name then None else s.draft)
  }

  predicate Editable(s: Editor) { s.service.Some? && s.pending.current.None? && s.draft.Some? }

  function Redrafted(s: Editor, form: Form): Editor { if Editable(s) then s.(draft := Some(form)) else s }

  function Asked(s: Editor, work: Work, sent: bool): Editor
    requires CanIssue(s.pending)
  {
    if s.pending.current.Some? || s.service.None? then s
    else s.(pending := Submitted(s.pending, RecoveryTarget(s.service.value, s.generation, work), sent))
  }

  function Answered(s: Editor, request: Request<RecoveryTarget>, form: Option<Form>): Editor {
    var t := s.(pending := Replied(s.pending, request));
    if s.pending.current == Some(request) && form.Some? && form.value.service == request.target.service
    then t.(draft := form) else t
  }

  datatype EditorEvent =
    | Activate(name: string)
    | Leave
    | EditDraft(edited: Form)
    | Ask(work: Work, sent: bool)
    | SaveReply(request: Request<RecoveryTarget>)
    | ReadReply(request: Request<RecoveryTarget>, form: Option<Form>)

  predicate EditorPossible(s: Editor, e: EditorEvent) {
    match e
    case Activate(_) => s.generation < U64_LIMIT - 1
    case Ask(_, _) => CanIssue(s.pending)
    case _ => true
  }

  function EditorNext(s: Editor, e: EditorEvent): Editor
    requires EditorPossible(s, e)
  {
    match e
    case Activate(name) => Activated(s, name)
    case Leave => Left(s)
    case EditDraft(edited) => Redrafted(s, edited)
    case Ask(work, sent) => Asked(s, work, sent)
    case SaveReply(request) => s.(pending := Replied(s.pending, request))
    case ReadReply(request, form) => Answered(s, request, form)
  }

  ghost predicate EditorRun(events: seq<EditorEvent>, states: seq<Editor>) {
    && |states| == |events| + 1 && states[0] == Editor(None, None, 0, PendingState(0, None))
    && forall k :: 0 <= k < |events| ==> EditorPossible(states[k], events[k]) && states[k + 1] == EditorNext(states[k], events[k])
  }

  /** The draft of an active editor is for its service. */
  predicate DraftRight(s: Editor) { s.service.Some? && s.draft.Some? ==> s.draft.value.service == s.service.value }

  /** What an active editor waits for was asked in this activation. */
  predicate RequestRight(s: Editor) {
    s.pending.current.Some? ==>
      s.service == Some(s.pending.current.value.target.service) && s.generation == s.pending.current.value.target.generation
  }

  /** An edit leaves the draft's service alone. */
  predicate KeepsService(s: Editor, e: EditorEvent) {
    e.EditDraft? && Editable(s) ==> e.edited.service == s.draft.value.service
  }

  lemma {:induction false} RequestStaysRight(events: seq<EditorEvent>, states: seq<Editor>, k: nat)
    requires EditorRun(events, states) && k < |states|
    ensures RequestRight(states[k])
  {
    if k > 0 { RequestStaysRight(events, states, k - 1); }
  }

  lemma {:induction false} DraftStaysRight(events: seq<EditorEvent>, states: seq<Editor>, k: nat)
    requires EditorRun(events, states) && k < |states|
    requires forall j :: 0 <= j < k ==> KeepsService(states[j], events[j])
    ensures DraftRight(states[k])
  {
    if k > 0 {
      DraftStaysRight(events, states, k - 1);
      RequestStaysRight(events, states, k - 1);
    }
  }

  /** Over all runs: the draft is for the editor's service all the time exactly if no edit of it changes its service. */
  lemma DraftBelongs(events: seq<EditorEvent>, states: seq<Editor>)
    requires EditorRun(events, states)
    ensures (forall k :: 0 <= k < |states| ==> DraftRight(states[k])) <==>
            (forall k :: 0 <= k < |events| ==> KeepsService(states[k], events[k]))
  {
    if forall k :: 0 <= k < |states| ==> DraftRight(states[k]) {
      forall k | 0 <= k < |events|
        ensures KeepsService(states[k], events[k])
      {
        assert DraftRight(states[k]) && DraftRight(states[k + 1]);
      }
    }
    if forall k :: 0 <= k < |events| ==> KeepsService(states[k], events[k]) {
      forall k | 0 <= k < |states|
        ensures DraftRight(states[k])
      {
        DraftStaysRight(events, states, k);
      }
    }
  }

  /** Over all runs: the draft does not change while a reply is awaited except by that reply or by switching to
      another service, and a reply to a request of another activation changes nothing at all. */
  lemma DraftIsFrozen(events: seq<EditorEvent>, states: seq<Editor>, k: nat)
    requires EditorRun(events, states) && k < |events|
    ensures var (s, t, e) := (states[k], states[k + 1], events[k]);
            && (s.pending.current.Some? && t.draft != s.draft ==>
                  (e.Activate? && s.draft.Some? && s.draft.value.service != e.name)
                  || (e.ReadReply? && s.pending.current == Some(e.request)))
            && ((e.ReadReply? || e.SaveReply?)
                && (s.service != Some(e.request.target.service) || s.generation != e.request.target.generation) ==>
                  t == s)
  {
    RequestStaysRight(events, states, k);
  }

  // -- The log view ----------------------------------------------------------------------------------------------

  datatype LogTarget = LogTarget(service: string, stderr: bool)

  /** `origin` is the request whose reply is shown. */
  datatype LogView = LogView(
    target: Option<LogTarget>, lines: seq<string>, pending: PendingState<LogTarget>, origin: Option<Request<LogTarget>>)

  class LogViewState {
    var target: Option<LogTarget>
    var lines: seq<string>
    const pending: Pending<LogTarget>
    ghost var origin: Option<Request<LogTarget>>

    ghost function View(): LogView
      reads this, pending
    {
      LogView(target, lines, pending.View(), origin)
    }

    constructor ()
      ensures fresh(pending) && View() == LogView(None, [], PendingState(0, None), None)
    {
      target, lines, origin := None, [], None;
      pending := new Pending();
    }

    method LeaveView()
      modifies pending
      ensures View() == old(View()).(pending := Invalidated(old(pending.View())))
    {
      pending.Invalidate();
    }

    method RequestLog(wanted: Option<LogTarget>, sent: bool)
      requires CanIssue(pending.View())
      modifies this, pending
      ensures View() == Requested(old(View()), wanted, sent)
      ensures target == wanted && lines == []
      ensures pending.current.Some? <==> wanted.Some? && sent
      ensures pending.current.Some? ==> pending.current.value.target == wanted.value
    {
      pending.Invalidate();
      lines := [];
      origin := None;
      target := wanted;
      if wanted.None? { return; }
      var request := pending.Submit(wanted.value, sent);
    }

    method Received(request: Request<LogTarget>, text: seq<string>) returns (ok: bool)
      modifies this, pending
      ensures ok <==> old(pending.current) == Some(request)
      ensures View() == Shown(old(View()), request, text)
      ensures target == old(target) && lines == (if ok then text else old(lines))
      ensures pending.current == if ok then None else old(pending.current)
    {
      ok := pending.Finish(request);
      if ok {
        lines := text;
        origin := Some(request);
      }
    }
  }

  function Requested(v: LogView, wanted: Option<LogTarget>, sent: bool): LogView
    requires CanIssue(v.pending)
  {
    LogView(wanted, [], if wanted.None? then Invalidated(v.pending) else Submitted(v.pending, wanted.value, sent), None)
  }

  function Shown(v: LogView, request: Request<LogTarget>, text: seq<string>): LogView {
    if v.pending.current == Some(request) then v.(lines := text, pending := Invalidated(v.pending), origin := Some(request)) else v
  }

  datatype LogEvent =
    | LeaveLog
    | WantLog(wanted: Option<LogTarget>, sent: bool)
    | GotLog(request: Request<LogTarget>, text: seq<string>)

  predicate LogPossible(v: LogView, e: LogEvent) { e.WantLog? ==> CanIssue(v.pending) }

  function LogNext(v: LogView, e: LogEvent): LogView
    requires LogPossible(v, e)
  {
    match e
    case LeaveLog => v.(pending := Invalidated(v.pending))
    case WantLog(wanted, sent) => Requested(v, wanted, sent)
    case GotLog(request, text) => Shown(v, request, text)
  }

  ghost predicate LogRun(events: seq<LogEvent>, states: seq<LogView>) {
    && |states| == |events| + 1 && states[0] == LogView(None, [], PendingState(0, None), None)
    && forall k :: 0 <= k < |events| ==> LogPossible(states[k], events[k]) && states[k + 1] == LogNext(states[k], events[k])
  }

  /** The lines on screen are always those of the log that is selected, from the latest request for it. */
  lemma {:induction false} LinesMatchTarget(events: seq<LogEvent>, states: seq<LogView>, k: nat)
    requires LogRun(events, states) && k < |states|
    ensures var v := states[k];
            && (v.lines != [] ==>
                  v.origin.Some? && v.target == Some(v.origin.value.target) && v.origin.value.id == v.pending.lastId)
            && (v.pending.current.Some? ==>
                  v.target == Some(v.pending.current.value.target) && v.pending.current.value.id == v.pending.lastId)
  {
    if k > 0 { LinesMatchTarget(events, states, k - 1); }
  }
}
