/**
 * The new-requests page: it lists the pending registration requests as cards and lets the
 * admin accept or decline each one.
 */
module RequestsPage {
  import opened Common
  import opened Strings
  import opened Markup

  /** One pending request as the page reads it from JSON (every field optional). */
  datatype PendingJson = PendingJson(
    objectId: Option<string>, id: Option<string>, email: Option<string>,
    name: Option<string>, fullName: Option<string>, username: Option<string>,
    batch: Option<string>, createdAt: Option<string>, requestedAt: Option<string>)

  /** The body of the pending-requests response; a present array is truthy even when empty. */
  datatype PendingBody = PendingBody(
    pending: Option<seq<PendingJson>>, list: Option<seq<PendingJson>>, requests: Option<seq<PendingJson>>)

  /** What the request for the pending list ends in; `Json(None)` is a body that is not a JSON object. */
  datatype PendingResponse = NotOk(status: int) | Threw | Json(body: Option<PendingBody>)

  /** `fetchPending`: `pending || list || requests || []`, or None when the request failed. */
  function FetchPending(resp: PendingResponse): (r: Option<seq<PendingJson>>)
    ensures r.None? <==> resp.NotOk? || resp.Threw?
    ensures resp.Json? && resp.body.Some? && resp.body.value.pending.Some? ==> r == resp.body.value.pending
    ensures resp.Json? && resp.body.Some? && resp.body.value.pending.None? && resp.body.value.list.Some? ==>
              r == resp.body.value.list
    ensures resp.Json? && resp.body.Some? && resp.body.value.pending.None? && resp.body.value.list.None? ==>
              r == (if resp.body.value.requests.Some? then resp.body.value.requests else Some([]))
    ensures resp.Json? && resp.body.None? ==> r == Some([])
  {
    match resp
    case NotOk(_) => None
    case Threw => None
    case Json(None) => Some([])
    case Json(Some(b)) =>
      if b.pending.Some? then b.pending
      else if b.list.Some? then b.list
      else if b.requests.Some? then b.requests
      else Some([])
  }

  /** The id a card's buttons act on: `_id || id || email`. */
  function RequestId(u: PendingJson): (r: Option<string>)
    ensures Truthy(r) <==> Truthy(u.objectId) || Truthy(u.id) || Truthy(u.email)
    ensures Truthy(u.objectId) ==> r == u.objectId
    ensures !Truthy(u.objectId) && Truthy(u.id) ==> r == u.id
    ensures !Truthy(u.objectId) && !Truthy(u.id) ==> r == u.email
  {
    Or(Or(u.objectId, u.id), u.email)
  }

  /** What the server or the network answers to an accept or decline request. */
  datatype ActionReply = ReplyOk | ReplyError(status: int, text: Option<string>) | ReplyThrew

  /** `doAction`'s result: the argument guard's refusal, or the request it sent and whether it succeeded. */
  datatype ActionResult = BadArgs | Sent(path: string, ok: bool)

  const ActionPrefix: string := "/api/admin/requests/"

  /** `doAction(id, action)`; `reply` stands for the response to the request, when one is sent. */
  function DoAction(id: Option<string>, action: string, reply: ActionReply): (r: ActionResult)
    ensures r.BadArgs? <==> !Truthy(id) || (action != "accept" && action != "decline")
    ensures r.Sent? ==> r.path == ActionPrefix + id.value + "/" + action
    ensures r.Sent? ==> (r.ok <==> reply.ReplyOk?)
  {
    if !Truthy(id) || (action != "accept" && action != "decline") then BadArgs
    else Sent(ActionPrefix + id.value + "/" + action, reply.ReplyOk?)
  }

  /** The request path names the id and the action as its last two segments. */
  lemma ActionPathSegments(id: string, action: string, reply: ActionReply)
    requires id != "" && '/' !in id
    requires action == "accept" || action == "decline"
    ensures var r := DoAction(Some(id), action, reply);
            r.Sent? && Split(r.path, '/') == ["", "api", "admin", "requests", id, action]
  {
    var parts := ["", "api", "admin", "requests", id, action];
    assert '/' !in action;
    ActionPathJoin(id, action);
    SplitJoin(parts, '/');
  }

  lemma ActionPathJoin(id: string, action: string)
    requires '/' !in id && '/' !in action
    ensures Join(["", "api", "admin", "requests", id, action], '/') == ActionPrefix + id + "/" + action
    ensures forall i :: 0 <= i < 6 ==> '/' !in ["", "api", "admin", "requests", id, action][i]
  {
    var head: seq<string> := ["", "api", "admin", "requests"];
    var tail := [id, action];
    assert Join(tail, '/') == id + "/" + action by {
      assert Join(tail[1..], '/') == action;
    }
    PrefixSegments();
    JoinAppend(head, tail, '/');
    assert head + tail == ["", "api", "admin", "requests", id, action];
  }

  /** The fixed segments of the request path. */
  lemma PrefixSegments()
    ensures Join(["", "api", "admin", "requests"], '/') + "/" == ActionPrefix
  {
    var head: seq<string> := ["", "api", "admin", "requests"];
    assert Join(head[3..], '/') == "requests";
    assert Join(head[2..], '/') == "admin/requests";
    assert Join(head[1..], '/') == "api/admin/requests";
  }

  /** The text of a card: title, contact line and request time, each escaped. */
  datatype CardView = CardView(title: string, contact: string, requested: string)

  function CardViewOf(u: PendingJson): (v: CardView)
    ensures v.title == EscapeHtml(Or(u.name, u.fullName))
    ensures v.contact == EscapeHtml(Or(u.email, u.username)) + " • " + EscapeHtml(u.batch)
    ensures v.requested == EscapeHtml(Or(u.createdAt, u.requestedAt))
  {
    CardView(EscapeHtml(Or(u.name, u.fullName)),
             EscapeHtml(Or(u.email, u.username)) + " • " + EscapeHtml(u.batch),
             EscapeHtml(Or(u.createdAt, u.requestedAt)))
  }

  datatype Card = Card(request: PendingJson, view: CardView)

  datatype Notice = LoadingNotice | FailedNotice | NoRequestsNotice | CardsShown

  datatype Button = Approve | Reject

  function ActionOf(b: Button): string {
    match b
    case Approve => "accept"
    case Reject => "decline"
  }

  /** The request container of the page. */
  class RequestList {
    var notice: Notice
    var cards: seq<Card>

    constructor ()
      ensures notice == LoadingNotice && cards == []
    {
      notice := LoadingNotice;
      cards := [];
    }

    /** `render()`: the failure message, the 'no new requests' message, or one card per request in order. */
    method Render(resp: PendingResponse)
      modifies this
      ensures FetchPending(resp).None? ==> notice == FailedNotice && cards == []
      ensures FetchPending(resp) == Some([]) ==> notice == NoRequestsNotice && cards == []
      ensures FetchPending(resp).Some? && FetchPending(resp).value != [] ==>
                var pending := FetchPending(resp).value;
                && notice == CardsShown && |cards| == |pending|
                && forall i :: 0 <= i < |pending| ==> cards[i] == Card(pending[i], CardViewOf(pending[i]))
    {
      notice := LoadingNotice;
      cards := [];
      var fetched := FetchPending(resp);
      if fetched.None? {
        notice := FailedNotice;
        return;
      }
      var pending := fetched.value;
      if |pending| == 0 {
        notice := NoRequestsNotice;
        return;
      }
      notice := CardsShown;
      for i := 0 to |pending|
        invariant notice == CardsShown && |cards| == i
        invariant forall j :: 0 <= j < i ==> cards[j] == Card(pending[j], CardViewOf(pending[j]))
      {
        cards := cards + [Card(pending[i], CardViewOf(pending[i]))];
      }
    }

    /**
     * A click on button `b` of card `k`, with `confirmed` the admin's answer to the confirm
     * dialog. A successful request removes the card; a cancelled, refused or failed one leaves
     * the card, with both buttons enabled again.
     */
    method Click(k: nat, b: Button, confirmed: bool, reply: ActionReply) returns (result: Option<ActionResult>)
      requires k < |cards|
      modifies this
      ensures notice == old(notice)
      ensures !confirmed ==> result.None?
      ensures confirmed ==> result == Some(DoAction(RequestId(old(cards)[k].request), ActionOf(b), reply))
      ensures cards == if result.Some? && result.value.Sent? && result.value.ok
                       then old(cards)[..k] + old(cards)[k + 1..] else old(cards)
    {
      if !confirmed {
        return None;
      }
      var r := DoAction(RequestId(cards[k].request), ActionOf(b), reply);
      result := Some(r);
      if r.Sent? && r.ok {
        cards := cards[..k] + cards[k + 1..];
      }
    }
  }

  /** A card whose request carries no id, id or email can never be acted on. */
  lemma NoIdNeverSent(u: PendingJson, b: Button, reply: ActionReply)
    requires !Truthy(u.objectId) && !Truthy(u.id) && !Truthy(u.email)
    ensures DoAction(RequestId(u), ActionOf(b), reply) == BadArgs
  {
  }
}
