/** The buttons the request tables show: the order-details button and the
    status-change buttons a manager or the requester is offered, by
    request status. */
module RequestHelper {
  import opened Records
  import opened Views

  /** URL name of the view a status-change button posts to. */
  function Endpoint(m: Mode): string {
    "request_" + ModeName(m)
  }

  lemma EndpointInjective(a: Mode, b: Mode)
    requires Endpoint(a) == Endpoint(b)
    ensures a == b
  {
    assert ModeName(a) == Endpoint(a)[8..] && ModeName(b) == Endpoint(b)[8..];
    ModeNameInjective(a, b);
  }

  /** A status-change button: its mode, its target URL name and the
      request it acts on. */
  datatype Button = Button(mode: Mode, endpoint: string, requestPk: int)

  function MakeButton(m: Mode, r: Request): Button {
    Button(m, Endpoint(m), r.pk)
  }

  /** A table cell: the empty string, the order-details button, or the
      right-aligned wrapper holding the action buttons (possibly none). */
  datatype Cell = EmptyString | OrderButton(requestPk: int) | ActionBar(buttons: seq<Button>)

  /** The status change each mode asks for, as a transition of the
      request lifecycle: cancel and complete leave an open request, reopen
      brings back a cancelled one. */
  predicate Applies(s: Status, m: Mode) {
    match m
    case CancelMode => s == Open
    case CompleteMode => s == Open
    case ReopenMode => s == Cancelled
  }

  /** `_request_list`. */
  function RequestList(r: Request, perm: bool): (c: Cell)
    ensures c == EmptyString <==> !perm
  {
    if !perm then EmptyString else OrderButton(r.pk)
  }

  /** `_request_actions`: what a manager is offered. */
  function RequestActions(r: Request, perm: bool): Cell {
    if !perm then EmptyString
    else match r.status
      case Open => ActionBar([MakeButton(CancelMode, r), MakeButton(CompleteMode, r)])
      case Cancelled => ActionBar([MakeButton(ReopenMode, r)])
      case Completed => ActionBar([])
  }

  /** `_my_request_actions`: what the requester is offered. */
  function MyRequestActions(r: Request, perm: bool): Cell {
    if !perm then EmptyString
    else match r.status
      case Open => ActionBar([MakeButton(CancelMode, r)])
      case Cancelled => ActionBar([MakeButton(ReopenMode, r)])
      case Completed => ActionBar([])
  }

  /** Without permission every cell is the empty string; with it a manager
      is offered exactly the transitions the request's status allows, each
      once, cancel before complete, and each button targets the view of
      its own mode for this request. */
  lemma RequestActionsAreTransitions(r: Request, perm: bool)
    ensures !perm ==> RequestList(r, perm) == EmptyString && RequestActions(r, perm) == EmptyString
                      && MyRequestActions(r, perm) == EmptyString
    ensures perm ==> RequestActions(r, perm).ActionBar?
    ensures perm ==> var bs := RequestActions(r, perm).buttons;
      && (forall m :: Applies(r.status, m) <==> exists i :: 0 <= i < |bs| && bs[i].mode == m)
      && (forall i, j :: 0 <= i < j < |bs| ==> bs[i].mode != bs[j].mode)
      && (forall i :: 0 <= i < |bs| ==> bs[i].endpoint == Endpoint(bs[i].mode) && bs[i].requestPk == r.pk)
      && (r.status == Open ==> bs == [MakeButton(CancelMode, r), MakeButton(CompleteMode, r)])
  {
    if perm {
      var bs := RequestActions(r, perm).buttons;
      forall m | Applies(r.status, m) ensures exists i :: 0 <= i < |bs| && bs[i].mode == m {
        if m == CompleteMode {
          assert bs[1].mode == m;
        } else {
          assert bs[0].mode == m;
        }
      }
    }
  }

  /** The requester is offered a subset of the manager's buttons: the same
      reopen, cancel but never complete. */
  lemma MyActionsWithinManagerActions(r: Request, perm: bool)
    ensures perm ==> MyRequestActions(r, perm).ActionBar?
    ensures perm ==> var mine := MyRequestActions(r, perm).buttons;
      var all := RequestActions(r, perm).buttons;
      && (forall i :: 0 <= i < |mine| ==> mine[i] in all && mine[i].mode != CompleteMode)
      && (forall i :: 0 <= i < |all| && all[i].mode != CompleteMode ==> all[i] in mine)
  {
  }
}
