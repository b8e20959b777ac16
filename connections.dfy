/**
 * The partner-connection handlers of go/handlers/connection.go: the active
 * connection of a user, an invitation by e-mail, its acceptance, which opens
 * each partner's events to the other, and its rejection or removal, which
 * closes them again.
 *
 * A user's `connections` subcollection is a map from document id to
 * connection; the `users` collection is a map from user id to profile. An
 * equality query answers in document-id order, so "the first match" is the
 * match with the least id. Connection and user documents are typed: they are
 * only written by these handlers and by sign-up.
 */
module ConnectionHandlers {
  import opened Optional
  import opened Text
  import opened GoUtil
  import opened Http
  import opened EventHandlers

  const BindingError := "Key: 'Email' Error:Field validation for 'Email' failed on the 'required' tag"
  const InvalidEmail := "Invalid email format"
  const SelfInvite := "Cannot connect to yourself"
  const UserNotFound := "User not found"
  const InvitationNotFound := "Invitation not found"
  const NotAuthorized := "Not authorized"
  const InviterNotFound := "Inviting user not found"
  const AcceptFailed := "Failed to accept invitation"
  const InvitationAccepted := "Invitation accepted"
  const ConnectionRemoved := "Connection removed"

  datatype Role = Initiator | Receiver
  datatype Status = Pending | Active

  function StatusName(s: Status): string
  {
    match s
    case Pending => "pending"
    case Active => "active"
  }

  /** The other side of a connection. */
  function Opposite(r: Role): Role
  {
    match r
    case Initiator => Receiver
    case Receiver => Initiator
  }

  /** A connection document: the partner's e-mail, this user's role, and the partner's id once accepted. */
  datatype Conn = Conn(partnerEmail: string, role: Role, status: Status, partnerUID: Option<string>,
                       createdAt: int, updatedAt: int)

  /** A user profile; `passwordHash` and the other sign-up fields are not modelled. */
  datatype UserDoc = UserDoc(email: string, name: string)

  type Users = map<string, UserDoc>

  /** Every user's `connections` subcollection, by user id. */
  type Links = map<string, map<string, Conn>>

  /** A user's subcollection; a user without one has an empty one. */
  function ConnsOf(conns: Links, uid: string): map<string, Conn>
  {
    if uid in conns then conns[uid] else map[]
  }

  // ---------------------------------------------------------------------
  // Equality queries

  /** `Where("email", "==", email)` on `users`, first result: the least user id with that e-mail. */
  function UserWithEmail(users: Users, email: string): (r: Option<string>)
    ensures r.None? <==> forall u :: u in users ==> users[u].email != email
    ensures r.Some? ==> r.value in users && users[r.value].email == email
    ensures r.Some? ==> forall u :: u in users && users[u].email == email ==> StrLe(r.value, u)
  {
    var ids := set u | u in users && users[u].email == email;
    assert forall u :: u in users && users[u].email == email ==> u in ids;
    if ids == {} then None else Some(Least(ids))
  }

  /** `Where("partnerEmail", "==", email)` on a subcollection, first result. */
  function FirstWithPartner(m: map<string, Conn>, email: string): (r: Option<string>)
    ensures r.None? <==> forall id :: id in m ==> m[id].partnerEmail != email
    ensures r.Some? ==> r.value in m && m[r.value].partnerEmail == email
    ensures r.Some? ==> forall id :: id in m && m[id].partnerEmail == email ==> StrLe(r.value, id)
  {
    var ids := set id | id in m && m[id].partnerEmail == email;
    assert forall id :: id in m && m[id].partnerEmail == email ==> id in ids;
    if ids == {} then None else Some(Least(ids))
  }

  /** `Where("status", "==", "active")` on a subcollection, first result. */
  function FirstActive(m: map<string, Conn>): (r: Option<string>)
    ensures r.None? <==> forall id :: id in m ==> m[id].status != Active
    ensures r.Some? ==> r.value in m && m[r.value].status == Active
    ensures r.Some? ==> forall id :: id in m && m[id].status == Active ==> StrLe(r.value, id)
  {
    var ids := set id | id in m && m[id].status == Active;
    assert forall id :: id in m && m[id].status == Active ==> id in ids;
    if ids == {} then None else Some(Least(ids))
  }

  predicate UniqueEmails(users: Users)
  {
    forall u, v :: u in users && v in users && users[u].email == users[v].email ==> u == v
  }

  /** With one account per e-mail, looking a user's e-mail up finds that user. */
  lemma UserWithOwnEmail(users: Users, u: string)
    requires UniqueEmails(users) && u in users
    ensures UserWithEmail(users, users[u].email) == Some(u)
  {
  }

  // ---------------------------------------------------------------------
  // Sharing events: `connectedUsers` of the events a user created

  datatype Change = Grant | Revoke

  /** A list of names with `who` appended unless it is already there. */
  function WithName(items: seq<string>, who: string): seq<string>
  {
    if who in items then items else items + [who]
  }

  /**
   * `who` is listed afterwards, once more only if it was absent, every
   * other name keeps its count, and removing `who` again gives what removing
   * it from the original gives: the original itself when `who` was absent.
   */
  lemma WithNameFacts(items: seq<string>, who: string)
    ensures who in WithName(items, who)
    ensures multiset(WithName(items, who))[who] == if who in items then multiset(items)[who] else 1
    ensures forall x :: x != who ==> multiset(WithName(items, who))[x] == multiset(items)[x]
    ensures Without(WithName(items, who), who) == Without(items, who)
    ensures who !in items ==> Without(WithName(items, who), who) == items
  {
    assert multiset(items + [who]) == multiset(items) + multiset{who};
    WithoutAppend(items, [who], who);
    assert Without([who], who) == Without([], who) == [];
    if who !in items {
      WithoutAbsent(items, who);
    }
  }

  /** An event with `connectedUsers` written as a string array. */
  function WithUsers(doc: EventDoc, items: seq<string>): EventDoc
  {
    doc.(data := doc.data["connectedUsers" := StringsValue(items)])
  }

  /**
   * One document of the loop over `owner`'s events: a failed conversion of
   * `connectedUsers` panics (`None`); granting appends `who` when absent,
   * revoking removes every `who` when present; other events are untouched.
   */
  function Edit(doc: EventDoc, owner: string, who: string, change: Change): Option<EventDoc>
  {
    if !CreatedBy(doc, owner) then Some(doc)
    else
      var users := StringsOf(FieldOrNil(doc.data, "connectedUsers"));
      if users.Panics? then None
      else if change == Grant then
        if who in users.Elements() then Some(doc) else Some(WithUsers(doc, users.Elements() + [who]))
      else
        if who in users.Elements() then Some(WithUsers(doc, Without(users.Elements(), who))) else Some(doc)
  }

  /** The collection after a loop over the events, and whether it stopped at a panic. */
  datatype Rewrite = Rewrite(docs: seq<EventDoc>, panicked: bool)

  /** The loop over `docs` in order; after a panic the remaining events stay as they were. */
  function EditAll(docs: seq<EventDoc>, owner: string, who: string, change: Change): (r: Rewrite)
    ensures |r.docs| == |docs|
  {
    if |docs| == 0 then Rewrite([], false)
    else
      var r := EditAll(docs[..|docs| - 1], owner, who, change);
      var last := docs[|docs| - 1];
      if r.panicked then Rewrite(r.docs + [last], true)
      else
        match Edit(last, owner, who, change)
        case None => Rewrite(r.docs + [last], true)
        case Some(d) => Rewrite(r.docs + [d], false)
  }

  /** The connected users a document's readers see. */
  function SharedWithOf(doc: EventDoc): seq<string>
    requires !PanicsOn(doc)
  {
    StringsOf(FieldOrNil(doc.data, "connectedUsers")).Elements()
  }

  /**
   * One edit keeps the event's id and every field but `connectedUsers`. On
   * an event of `owner` that converts, granting leaves `who` present and
   * adds no second copy, and revoking leaves exactly the other names, in order.
   */
  lemma EditFacts(doc: EventDoc, owner: string, who: string, change: Change)
    ensures Edit(doc, owner, who, change).None? <==> CreatedBy(doc, owner) && PanicsOn(doc)
    ensures Edit(doc, owner, who, change).Some? ==>
      var d := Edit(doc, owner, who, change).value;
      && d.id == doc.id
      && (forall k :: k != "connectedUsers" ==> (k in d.data <==> k in doc.data))
      && (forall k :: k in doc.data && k != "connectedUsers" ==> d.data[k] == doc.data[k])
      && (!CreatedBy(doc, owner) ==> d == doc)
      && (CreatedBy(doc, owner) ==> CreatedBy(d, owner) && !PanicsOn(d))
    ensures Edit(doc, owner, who, change).Some? && CreatedBy(doc, owner) && change == Grant ==>
      SharedWithOf(Edit(doc, owner, who, change).value) == WithName(SharedWithOf(doc), who)
    ensures Edit(doc, owner, who, change).Some? && CreatedBy(doc, owner) && change == Revoke ==>
      var d := Edit(doc, owner, who, change).value;
      SharedWithOf(d) == Without(SharedWithOf(doc), who)
  {
    var users := StringsOf(FieldOrNil(doc.data, "connectedUsers"));
    if CreatedBy(doc, owner) && !users.Panics? {
      var items := users.Elements();
      StringsRoundTrip(items + [who]);
      StringsRoundTrip(Without(items, who));
      if who !in items {
        WithoutAbsent(items, who);
      }
    }
  }

  /** Revoking what a grant added gives the event back its former connected users. */
  lemma RevokeUndoesGrant(doc: EventDoc, owner: string, who: string)
    requires CreatedBy(doc, owner) && !PanicsOn(doc) && who !in SharedWithOf(doc)
    ensures Edit(doc, owner, who, Grant).Some?
    ensures var granted := Edit(doc, owner, who, Grant).value;
      && who in SharedWithOf(granted)
      && Edit(granted, owner, who, Revoke).Some?
      && SharedWithOf(Edit(granted, owner, who, Revoke).value) == SharedWithOf(doc)
  {
    var items := SharedWithOf(doc);
    var granted := WithUsers(doc, items + [who]);
    StringsRoundTrip(items + [who]);
    assert CreatedBy(granted, owner);
    WithoutAppend(items, [who], who);
    WithoutAbsent(items, who);
    assert Without([who], who) == Without([], who) == [];
    StringsRoundTrip(items);
  }

  /** The loop stops exactly when an event of the owner fails to convert. */
  lemma {:induction false} EditAllPanics(docs: seq<EventDoc>, owner: string, who: string, change: Change)
    ensures EditAll(docs, owner, who, change).panicked <==>
      exists i :: 0 <= i < |docs| && Edit(docs[i], owner, who, change).None?
  {
    if |docs| > 0 {
      var pre := docs[..|docs| - 1];
      EditAllPanics(pre, owner, who, change);
      assert forall i :: 0 <= i < |pre| ==> docs[i] == pre[i];
    }
  }

  /** Every event is either left alone or edited, and without a panic every one of them is edited. */
  lemma {:induction false} EditAllEdits(docs: seq<EventDoc>, owner: string, who: string, change: Change)
    ensures forall i :: 0 <= i < |docs| ==>
      var d := EditAll(docs, owner, who, change).docs[i];
      d == docs[i] || Edit(docs[i], owner, who, change) == Some(d)
    ensures !EditAll(docs, owner, who, change).panicked ==>
      forall i :: 0 <= i < |docs| ==> Edit(docs[i], owner, who, change) == Some(EditAll(docs, owner, who, change).docs[i])
  {
    if |docs| > 0 {
      var pre := docs[..|docs| - 1];
      EditAllEdits(pre, owner, who, change);
      assert forall i :: 0 <= i < |pre| ==> docs[i] == pre[i];
    }
  }

  /** Once the loop has panicked, the events after it are not visited. */
  lemma {:induction false} EditAllAfterPanic(a: seq<EventDoc>, b: seq<EventDoc>, owner: string, who: string, change: Change)
    requires EditAll(a, owner, who, change).panicked
    ensures EditAll(a + b, owner, who, change) == Rewrite(EditAll(a, owner, who, change).docs + b, true)
  {
    if |b| == 0 {
      assert a + b == a;
    } else {
      var b' := b[..|b| - 1];
      assert (a + b)[..|a + b| - 1] == a + b';
      EditAllAfterPanic(a, b', owner, who, change);
      assert EditAll(a, owner, who, change).docs + b == EditAll(a, owner, who, change).docs + b' + [b[|b| - 1]];
    }
  }

  /** Editing connected users keeps event ids and creators, so the event collection stays well formed. */
  lemma EditAllKeepsWellFormed(docs: seq<EventDoc>, nextId: nat, owner: string, who: string, change: Change)
    requires WellFormed(docs, nextId)
    ensures WellFormed(EditAll(docs, owner, who, change).docs, nextId)
  {
    var r := EditAll(docs, owner, who, change).docs;
    EditAllEdits(docs, owner, who, change);
    forall i | 0 <= i < |docs|
      ensures r[i].id == docs[i].id && "createdBy" in r[i].data && r[i].data["createdBy"] == docs[i].data["createdBy"]
    {
      EditFacts(docs[i], owner, who, change);
    }
  }

  /** One more event visited by the loop, with its edit `d`. */
  lemma EditAllStep(docs: seq<EventDoc>, i: nat, owner: string, who: string, change: Change, d: EventDoc)
    requires i < |docs| && !EditAll(docs[..i], owner, who, change).panicked
    requires Edit(docs[i], owner, who, change) == Some(d)
    ensures !EditAll(docs[..i + 1], owner, who, change).panicked
    ensures (EditAll(docs[..i], owner, who, change).docs + docs[i..])[i := d] ==
      EditAll(docs[..i + 1], owner, who, change).docs + docs[i + 1..]
    ensures d == docs[i] ==>
      EditAll(docs[..i], owner, who, change).docs + docs[i..] == EditAll(docs[..i + 1], owner, who, change).docs + docs[i + 1..]
  {
    assert docs[..i + 1][..i] == docs[..i];
    var pre := EditAll(docs[..i], owner, who, change).docs;
    assert EditAll(docs[..i + 1], owner, who, change).docs == pre + [d];
    assert docs[i..] == [docs[i]] + docs[i + 1..];
  }

  /** The loop panics at event `i`: the events from `i` on stay as they were. */
  lemma EditAllStop(docs: seq<EventDoc>, i: nat, owner: string, who: string, change: Change)
    requires i < |docs| && !EditAll(docs[..i], owner, who, change).panicked
    requires Edit(docs[i], owner, who, change).None?
    ensures EditAll(docs, owner, who, change) == Rewrite(EditAll(docs[..i], owner, who, change).docs + docs[i..], true)
  {
    assert docs[..i + 1][..i] == docs[..i];
    EditAllAfterPanic(docs[..i + 1], docs[i + 1..], owner, who, change);
    assert docs[..i + 1] + docs[i + 1..] == docs;
    assert EditAll(docs[..i], owner, who, change).docs + docs[i..] ==
      EditAll(docs[..i], owner, who, change).docs + [docs[i]] + docs[i + 1..];
  }

  /** The body of the grant loop for one event of the query: convert, check, append. */
  method GrantOne(doc: EventDoc, owner: string, who: string) returns (r: Option<EventDoc>)
    requires CreatedBy(doc, owner)
    ensures r == Edit(doc, owner, who, Grant)
  {
    var users := ToStringSlice(FieldOrNil(doc.data, "connectedUsers"));
    if users.Panics? {
      return None;
    }
    var has := Contains(users.Elements(), who);
    if !has {
      return Some(WithUsers(doc, users.Elements() + [who]));
    }
    return Some(doc);
  }

  /** The body of `removeFromEvents` for one event of the query: convert, check, remove. */
  method RevokeOne(doc: EventDoc, owner: string, who: string) returns (r: Option<EventDoc>)
    requires CreatedBy(doc, owner)
    ensures r == Edit(doc, owner, who, Revoke)
  {
    var users := ToStringSlice(FieldOrNil(doc.data, "connectedUsers"));
    if users.Panics? {
      return None;
    }
    var has := Contains(users.Elements(), who);
    if has {
      var kept := Remove(users.Elements(), who);
      return Some(WithUsers(doc, kept));
    }
    return Some(doc);
  }

  /**
   * The grant loop of `AcceptInvitation`: for each event `owner` created,
   * convert `connectedUsers` and, when `who` is not in it, append `who` and
   * write the array back.
   */
  method GrantEvents(events: EventStore, owner: string, who: string) returns (panicked: bool)
    modifies events
    ensures Rewrite(events.ddays, panicked) == EditAll(old(events.ddays), owner, who, Grant)
    ensures events.nextId == old(events.nextId)
  {
    ghost var docs := events.ddays;
    var i := 0;
    while i < |events.ddays|
      invariant 0 <= i <= |docs| == |events.ddays|
      invariant events.nextId == old(events.nextId)
      invariant events.ddays == EditAll(docs[..i], owner, who, Grant).docs + docs[i..]
      invariant !EditAll(docs[..i], owner, who, Grant).panicked
    {
      var doc := events.ddays[i];
      assert doc == docs[i];
      if CreatedBy(doc, owner) {
        var d := GrantOne(doc, owner, who);
        if d.None? {
          EditAllStop(docs, i, owner, who, Grant);
          return true;
        }
        EditAllStep(docs, i, owner, who, Grant, d.value);
        events.ddays := events.ddays[i := d.value];
      } else {
        EditAllStep(docs, i, owner, who, Grant, doc);
      }
      i := i + 1;
    }
    assert docs[..i] == docs;
    return false;
  }

  /**
   * `removeFromEvents` of `RejectInvitation`: for each event `owner`
   * created, convert `connectedUsers` and, when `who` is in it, write back
   * the array without it.
   */
  method RevokeEvents(events: EventStore, owner: string, who: string) returns (panicked: bool)
    modifies events
    ensures Rewrite(events.ddays, panicked) == EditAll(old(events.ddays), owner, who, Revoke)
    ensures events.nextId == old(events.nextId)
  {
    ghost var docs := events.ddays;
    var i := 0;
    while i < |events.ddays|
      invariant 0 <= i <= |docs| == |events.ddays|
      invariant events.nextId == old(events.nextId)
      invariant events.ddays == EditAll(docs[..i], owner, who, Revoke).docs + docs[i..]
      invariant !EditAll(docs[..i], owner, who, Revoke).panicked
    {
      var doc := events.ddays[i];
      assert doc == docs[i];
      if CreatedBy(doc, owner) {
        var d := RevokeOne(doc, owner, who);
        if d.None? {
          EditAllStop(docs, i, owner, who, Revoke);
          return true;
        }
        EditAllStep(docs, i, owner, who, Revoke, d.value);
        events.ddays := events.ddays[i := d.value];
      } else {
        EditAllStep(docs, i, owner, who, Revoke, doc);
      }
      i := i + 1;
    }
    assert docs[..i] == docs;
    return false;
  }

  // ---------------------------------------------------------------------
  // The invariant the handlers keep

  /**
   * The connection document `id` of user `u` has a twin: the account with
   * the partner's e-mail is another user, holding a document with the same
   * id that names `u`, with the other role and the same status; once active,
   * the document records that partner's id.
   */
  predicate Mirrored(users: Users, conns: Links, u: string, id: string)
    requires u in conns && id in conns[u]
  {
    var c := conns[u][id];
    var p := UserWithEmail(users, c.partnerEmail);
    && u in users
    && p.Some? && p.value != u
    && id in ConnsOf(conns, p.value)
    && ConnsOf(conns, p.value)[id].partnerEmail == users[u].email
    && ConnsOf(conns, p.value)[id].role == Opposite(c.role)
    && ConnsOf(conns, p.value)[id].status == c.status
    && (c.status == Active ==> c.partnerUID == p)
  }

  /** Connection ids come from the id counter. */
  predicate IdsBelow(conns: Links, nextId: nat)
  {
    forall u, id :: u in conns && id in conns[u] ==> AllDigits(id) && DigitsValue(id) < nextId
  }

  /** Every connection document has its twin. */
  predicate AllMirrored(users: Users, conns: Links)
  {
    forall u, id {:trigger Mirrored(users, conns, u, id)} :: u in conns && id in conns[u] ==> Mirrored(users, conns, u, id)
  }

  /** A user has at most one connection document per partner. */
  predicate OnePerPartner(conns: Links)
  {
    forall u, i, j :: u in conns && i in conns[u] && j in conns[u] && conns[u][i].partnerEmail == conns[u][j].partnerEmail ==> i == j
  }

  /**
   * One account per e-mail, connection ids from the id counter, every
   * connection document mirrored, and at most one document per partner in a
   * user's subcollection.
   */
  predicate Linked(users: Users, conns: Links, nextId: nat)
  {
    UniqueEmails(users) && IdsBelow(conns, nextId) && AllMirrored(users, conns) && OnePerPartner(conns)
  }

  /** The document `id` of `u` has its twin. */
  lemma Twin(users: Users, conns: Links, u: string, id: string)
    requires AllMirrored(users, conns) && u in conns && id in conns[u]
    ensures Mirrored(users, conns, u, id)
  {
  }

  /** The twin of a document is the document of the partner, and its twin is the document itself. */
  lemma TwinOfTwin(users: Users, conns: Links, nextId: nat, u: string, id: string)
    requires Linked(users, conns, nextId) && u in conns && id in conns[u]
    ensures Mirrored(users, conns, u, id)
    ensures var p := UserWithEmail(users, conns[u][id].partnerEmail).value;
      && p in conns && id in conns[p]
      && UserWithEmail(users, conns[p][id].partnerEmail) == Some(u)
  {
    assert Mirrored(users, conns, u, id);
    UserWithOwnEmail(users, u);
  }

  // ---------------------------------------------------------------------
  // GetConnection

  /** What `GetConnection` answers: `connected: false`, or the connection id and the partner's profile. */
  datatype ConnectionView = NotConnected | Connected(connectionId: string, partner: Option<UserDoc>)

  /** `GetConnection`: the first active connection of the user, and the first account with its partner's e-mail. */
  function ConnectionOf(users: Users, conns: Links, uid: string): (v: ConnectionView)
    ensures v.NotConnected? <==> forall id :: id in ConnsOf(conns, uid) ==> ConnsOf(conns, uid)[id].status != Active
    ensures v.Connected? ==>
      && v.connectionId in ConnsOf(conns, uid) && ConnsOf(conns, uid)[v.connectionId].status == Active
      && forall id :: id in ConnsOf(conns, uid) && ConnsOf(conns, uid)[id].status == Active ==> StrLe(v.connectionId, id)
  {
    var m := ConnsOf(conns, uid);
    match FirstActive(m)
    case None => NotConnected
    case Some(id) =>
      match UserWithEmail(users, m[id].partnerEmail)
      case None => Connected(id, None)
      case Some(p) => Connected(id, Some(users[p]))
  }

  /**
   * While the handlers' invariant holds, a reported connection is mutual:
   * the partner is the account the connection names, and that account holds
   * the same connection, active, naming the user.
   */
  lemma ConnectionIsMutual(users: Users, conns: Links, nextId: nat, uid: string)
    requires Linked(users, conns, nextId)
    ensures var v := ConnectionOf(users, conns, uid);
      v.Connected? ==>
        && v.partner.Some? && uid in users
        && exists p :: p in users && users[p] == v.partner.value && p != uid
             && v.connectionId in ConnsOf(conns, p)
             && ConnsOf(conns, p)[v.connectionId].status == Active
             && ConnsOf(conns, p)[v.connectionId].partnerEmail == users[uid].email
             && ConnsOf(conns, uid)[v.connectionId].partnerUID == Some(p)
  {
    var v := ConnectionOf(users, conns, uid);
    if v.Connected? {
      var id := v.connectionId;
      assert uid in conns && id in conns[uid];
      assert Mirrored(users, conns, uid, id);
      var p := UserWithEmail(users, conns[uid][id].partnerEmail).value;
      assert users[p] == v.partner.value;
    }
  }

  // ---------------------------------------------------------------------
  // InviteConnection

  /** The checks of an invitation: an error reply, or the normalised e-mail and the account it names. */
  datatype InvitePlan = Refused(reply: Reply<string>) | Send(target: string, targetID: string)

  /**
   * The body's e-mail must be present and of e-mail shape; once trimmed and
   * lower-cased it must not be the caller's own, it must belong to an
   * account, and the caller must have no connection document with it yet.
   */
  function PlanInvite(users: Users, conns: Links, uid: string, email: string): InvitePlan
    requires uid in users
  {
    if email == "" then Refused(Fail(BadRequest, BindingError))
    else if !ValidEmail(email) then Refused(Fail(BadRequest, InvalidEmail))
    else
      var target := ToLower(TrimSpace(email));
      if target == users[uid].email then Refused(Fail(BadRequest, SelfInvite))
      else
        match UserWithEmail(users, target)
        case None => Refused(Fail(NotFound, UserNotFound))
        case Some(targetID) =>
          var mine := ConnsOf(conns, uid);
          match FirstWithPartner(mine, target)
          case Some(id) => Refused(Fail(BadRequest, "Connection " + StatusName(mine[id].status) + " already"))
          case None => Send(target, targetID)
  }

  /** The two pending documents of a new invitation, written under one id. */
  function Invited(conns: Links, uid: string, userEmail: string, target: string, targetID: string,
                   id: string, now: int): Links
  {
    var c1 := conns[uid := ConnsOf(conns, uid)[id := Conn(target, Initiator, Pending, None, now, now)]];
    c1[targetID := ConnsOf(c1, targetID)[id := Conn(userEmail, Receiver, Pending, None, now, now)]]
  }

  /** A handler's reply, the connection documents after it, and the id counter after it. */
  datatype Sent = Sent(reply: Reply<string>, conns: Links, nextId: nat)

  /** `InviteConnection` as a value: a panic for a caller without a profile, a refusal, or the new pair. */
  function InviteOutcome(users: Users, conns: Links, nextId: nat, uid: string, email: string, now: int): Sent
  {
    if uid !in users then Sent(Panicked, conns, nextId)
    else
      match PlanInvite(users, conns, uid, email)
      case Refused(reply) => Sent(reply, conns, nextId)
      case Send(target, targetID) =>
        var id := NatToString(nextId);
        Sent(Ok(id), Invited(conns, uid, users[uid].email, target, targetID, id, now), nextId + 1)
  }

  /**
   * An invitation is sent exactly when every check passes; a refused one
   * changes nothing, and a sent one gives the caller an initiator document
   * and the invited account a receiver document, both pending, under the
   * new id it answers with.
   */
  lemma InviteRules(users: Users, conns: Links, nextId: nat, uid: string, email: string, now: int)
    ensures var o := InviteOutcome(users, conns, nextId, uid, email, now);
      o.reply.Ok? <==>
        && uid in users && email != "" && ValidEmail(email)
        && ToLower(TrimSpace(email)) != users[uid].email
        && (exists t :: t in users && users[t].email == ToLower(TrimSpace(email)))
        && forall id :: id in ConnsOf(conns, uid) ==> ConnsOf(conns, uid)[id].partnerEmail != ToLower(TrimSpace(email))
    ensures var o := InviteOutcome(users, conns, nextId, uid, email, now);
      !o.reply.Ok? ==> o.conns == conns && o.nextId == nextId
    ensures var o := InviteOutcome(users, conns, nextId, uid, email, now);
      o.reply.Ok? ==>
        var target := ToLower(TrimSpace(email));
        var t := UserWithEmail(users, target).value;
        && o.reply.body == NatToString(nextId) && o.nextId == nextId + 1
        && t != uid
        && ConnsOf(o.conns, uid)[o.reply.body] == Conn(target, Initiator, Pending, None, now, now)
        && ConnsOf(o.conns, t)[o.reply.body] == Conn(users[uid].email, Receiver, Pending, None, now, now)
  {
    if uid in users {
      PlanInviteSends(users, conns, uid, email);
    }
  }

  /** An invitation's outcome follows its checks: a refusal answers, a pass writes the pair under the counter's id. */
  lemma InviteByPlan(users: Users, conns: Links, nextId: nat, uid: string, email: string, now: int)
    requires uid in users
    ensures var plan := PlanInvite(users, conns, uid, email);
      && (plan.Refused? ==> InviteOutcome(users, conns, nextId, uid, email, now) == Sent(plan.reply, conns, nextId))
      && (plan.Send? ==>
            InviteOutcome(users, conns, nextId, uid, email, now) ==
            Sent(Ok(NatToString(nextId)), Invited(conns, uid, users[uid].email, plan.target, plan.targetID, NatToString(nextId), now), nextId + 1))
  {
  }

  /** The checks of an invitation pass exactly when the invited e-mail is well formed, another user's, and new to the caller. */
  lemma PlanInviteSends(users: Users, conns: Links, uid: string, email: string)
    requires uid in users
    ensures var plan := PlanInvite(users, conns, uid, email);
      var target := ToLower(TrimSpace(email));
      && (plan.Refused? ==> !plan.reply.Ok?)
      && (plan.Send? <==>
            && email != "" && ValidEmail(email) && target != users[uid].email
            && (exists t :: t in users && users[t].email == target)
            && forall id :: id in ConnsOf(conns, uid) ==> ConnsOf(conns, uid)[id].partnerEmail != target)
      && (plan.Send? ==> plan.target == target && UserWithEmail(users, target) == Some(plan.targetID) && plan.targetID != uid)
  {
    var target := ToLower(TrimSpace(email));
    var t := UserWithEmail(users, target);
    if t.Some? {
      assert users[t.value].email == target;
    }
  }

  lemma FreshId(conns: Links, nextId: nat)
    requires IdsBelow(conns, nextId)
    ensures forall u :: u in conns ==> NatToString(nextId) !in conns[u]
  {
  }

  /** The new pair is mirrored and every other document keeps its twin. */
  lemma InvitedMirrored(users: Users, conns: Links, nextId: nat, uid: string, target: string, t: string, now: int, n: Links)
    requires Linked(users, conns, nextId)
    requires uid in users && UserWithEmail(users, target) == Some(t) && target != users[uid].email
    requires n == Invited(conns, uid, users[uid].email, target, t, NatToString(nextId), now)
    ensures AllMirrored(users, n)
  {
    var id := NatToString(nextId);
    FreshId(conns, nextId);
    UserWithOwnEmail(users, uid);
    forall w, k | w in n && k in n[w]
      ensures Mirrored(users, n, w, k)
    {
      if k == id {
        assert w == uid || w == t;
      } else {
        assert w in conns && k in conns[w] && n[w][k] == conns[w][k];
        assert Mirrored(users, conns, w, k);
        var p := UserWithEmail(users, conns[w][k].partnerEmail).value;
        assert ConnsOf(n, p)[k] == ConnsOf(conns, p)[k];
      }
    }
  }

  /** The new documents name partners the two users had no document for. */
  lemma InvitedOnePerPartner(users: Users, conns: Links, nextId: nat, uid: string, target: string, t: string, now: int, n: Links)
    requires Linked(users, conns, nextId)
    requires uid in users && UserWithEmail(users, target) == Some(t) && target != users[uid].email
    requires forall id :: id in ConnsOf(conns, uid) ==> ConnsOf(conns, uid)[id].partnerEmail != target
    requires n == Invited(conns, uid, users[uid].email, target, t, NatToString(nextId), now)
    ensures OnePerPartner(n)
  {
    var id := NatToString(nextId);
    FreshId(conns, nextId);
    UserWithOwnEmail(users, uid);
    forall w: string, i: string, j: string | w in n && i in n[w] && j in n[w] && n[w][i].partnerEmail == n[w][j].partnerEmail
      ensures i == j
    {
      if i != j && (i == id || j == id) {
        var other := if i == id then j else i;
        if w == t {
          assert other in conns[t] && n[t][other] == conns[t][other];
          Twin(users, conns, t, other);
          assert false;
        } else {
          assert false;
        }
      }
    }
  }

  /** The new id is the counter's, so every id stays below the advanced counter. */
  lemma InvitedIds(conns: Links, nextId: nat, uid: string, userEmail: string, target: string, t: string, now: int, n: Links)
    requires IdsBelow(conns, nextId)
    requires n == Invited(conns, uid, userEmail, target, t, NatToString(nextId), now)
    ensures IdsBelow(n, nextId + 1)
  {
  }

  lemma InvitedKeepsLinked(users: Users, conns: Links, nextId: nat, uid: string, target: string, t: string, now: int)
    requires Linked(users, conns, nextId)
    requires uid in users && UserWithEmail(users, target) == Some(t) && target != users[uid].email
    requires forall id :: id in ConnsOf(conns, uid) ==> ConnsOf(conns, uid)[id].partnerEmail != target
    ensures Linked(users, Invited(conns, uid, users[uid].email, target, t, NatToString(nextId), now), nextId + 1)
  {
    var n := Invited(conns, uid, users[uid].email, target, t, NatToString(nextId), now);
    InvitedMirrored(users, conns, nextId, uid, target, t, now, n);
    InvitedOnePerPartner(users, conns, nextId, uid, target, t, now, n);
    InvitedIds(conns, nextId, uid, users[uid].email, target, t, now, n);
  }

  /** Sending an invitation keeps the handlers' invariant. */
  lemma InviteKeepsLinked(users: Users, conns: Links, nextId: nat, uid: string, email: string, now: int)
    requires Linked(users, conns, nextId)
    ensures var o := InviteOutcome(users, conns, nextId, uid, email, now);
      Linked(users, o.conns, o.nextId)
  {
    if uid in users && PlanInvite(users, conns, uid, email).Send? {
      var target := ToLower(TrimSpace(email));
      var t := UserWithEmail(users, target).value;
      assert PlanInvite(users, conns, uid, email) == Send(target, t);
      InvitedKeepsLinked(users, conns, nextId, uid, target, t, now);
    }
  }

  // ---------------------------------------------------------------------
  // AcceptInvitation

  /** The fields the acceptance writes into a connection document. */
  function Activate(c: Conn, partnerID: string, now: int): Conn
  {
    c.(status := Active, updatedAt := now, partnerUID := Some(partnerID))
  }

  /**
   * The acceptance transaction: the caller's document and then the
   * inviter's document of the same id become active; an update of a
   * missing document fails the transaction, which then writes nothing.
   */
  function Activated(conns: Links, uid: string, inviterID: string, connID: string, now: int): Option<Links>
    requires connID in ConnsOf(conns, uid)
  {
    var mine := ConnsOf(conns, uid);
    var c1 := conns[uid := mine[connID := Activate(mine[connID], inviterID, now)]];
    var theirs := ConnsOf(c1, inviterID);
    if connID !in theirs then None
    else Some(c1[inviterID := theirs[connID := Activate(theirs[connID], uid, now)]])
  }

  /** A handler's reply, the connection documents after it, and the event collection after it. */
  datatype Changed = Changed(reply: Reply<string>, conns: Links, ddays: seq<EventDoc>)

  /**
   * `AcceptInvitation` as a value: the caller must hold the document as its
   * receiver and the inviter must have an account; after the transaction the
   * caller's e-mail is granted on the inviter's events, then the inviter's
   * on the caller's. A panic in either loop keeps the writes made before it.
   */
  function AcceptOutcome(users: Users, conns: Links, ddays: seq<EventDoc>, uid: string, connID: string, now: int): Changed
  {
    if uid !in users then Changed(Panicked, conns, ddays)
    else
      var userEmail := users[uid].email;
      var mine := ConnsOf(conns, uid);
      if connID !in mine then Changed(Fail(NotFound, InvitationNotFound), conns, ddays)
      else if mine[connID].role != Receiver then Changed(Fail(Forbidden, NotAuthorized), conns, ddays)
      else
        var inviterEmail := mine[connID].partnerEmail;
        match UserWithEmail(users, inviterEmail)
        case None => Changed(Fail(InternalError, InviterNotFound), conns, ddays)
        case Some(inviterID) =>
          match Activated(conns, uid, inviterID, connID, now)
          case None => Changed(Fail(InternalError, AcceptFailed), conns, ddays)
          case Some(active) =>
            var e1 := EditAll(ddays, inviterEmail, userEmail, Grant);
            if e1.panicked then Changed(Panicked, active, e1.docs)
            else
              var e2 := EditAll(e1.docs, userEmail, inviterEmail, Grant);
              if e2.panicked then Changed(Panicked, active, e2.docs)
              else Changed(Ok(InvitationAccepted), active, e2.docs)
  }

  /**
   * While the invariant holds, only the receiver accepts, and the
   * transaction cannot fail: the inviter is the partner the document names
   * and holds its twin. Both documents become active, each naming the other
   * user, and no other connection document changes.
   */
  lemma AcceptActivates(users: Users, conns: Links, nextId: nat, ddays: seq<EventDoc>, uid: string, connID: string, now: int)
    requires Linked(users, conns, nextId)
    ensures var o := AcceptOutcome(users, conns, ddays, uid, connID, now);
      o.reply.Fail? ==> o.reply.status != InternalError && o.conns == conns && o.ddays == ddays
    ensures var o := AcceptOutcome(users, conns, ddays, uid, connID, now);
      o.reply.Fail? <==> uid in users && (connID !in ConnsOf(conns, uid) || ConnsOf(conns, uid)[connID].role != Receiver)
    ensures var o := AcceptOutcome(users, conns, ddays, uid, connID, now);
      uid in users && !o.reply.Fail? ==>
        var c := ConnsOf(conns, uid)[connID];
        var p := UserWithEmail(users, c.partnerEmail).value;
        && c.role == Receiver && p != uid
        && o.conns == conns[uid := ConnsOf(conns, uid)[connID := Activate(c, p, now)]]
                           [p := ConnsOf(conns, p)[connID := Activate(ConnsOf(conns, p)[connID], uid, now)]]
  {
    if uid in users && connID in ConnsOf(conns, uid) {
      Twin(users, conns, uid, connID);
    }
  }

  /** A grant pass that does not panic: the owner's events now list `who`, appended when absent, and no other event changes. */
  lemma GrantPass(docs: seq<EventDoc>, owner: string, who: string)
    requires !EditAll(docs, owner, who, Grant).panicked
    ensures var r := EditAll(docs, owner, who, Grant).docs;
      forall i :: 0 <= i < |docs| ==>
        if CreatedBy(docs[i], owner) then
          && !PanicsOn(docs[i]) && CreatedBy(r[i], owner) && !PanicsOn(r[i]) && r[i].id == docs[i].id
          && SharedWithOf(r[i]) == WithName(SharedWithOf(docs[i]), who)
        else r[i] == docs[i]
  {
    EditAllEdits(docs, owner, who, Grant);
    forall i | 0 <= i < |docs| {
      EditFacts(docs[i], owner, who, Grant);
    }
  }

  /**
   * After a completed acceptance each partner's e-mail is listed on every
   * event the other created, appended only where it was missing (so, by
   * `WithNameFacts`, never twice), and no other event changes.
   */
  lemma AcceptShares(users: Users, conns: Links, nextId: nat, ddays: seq<EventDoc>, uid: string, connID: string, now: int)
    requires Linked(users, conns, nextId)
    requires AcceptOutcome(users, conns, ddays, uid, connID, now).reply.Ok?
    ensures uid in users && connID in ConnsOf(conns, uid)
    ensures var o := AcceptOutcome(users, conns, ddays, uid, connID, now);
      var me := users[uid].email;
      var partner := ConnsOf(conns, uid)[connID].partnerEmail;
      && me != partner && |o.ddays| == |ddays|
      && forall i :: 0 <= i < |ddays| ==>
        && (CreatedBy(ddays[i], partner) ==>
              !PanicsOn(ddays[i]) && CreatedBy(o.ddays[i], partner) && !PanicsOn(o.ddays[i]) && SharedWithOf(o.ddays[i]) == WithName(SharedWithOf(ddays[i]), me))
        && (CreatedBy(ddays[i], me) ==>
              !PanicsOn(ddays[i]) && CreatedBy(o.ddays[i], me) && !PanicsOn(o.ddays[i]) && SharedWithOf(o.ddays[i]) == WithName(SharedWithOf(ddays[i]), partner))
        && (!CreatedBy(ddays[i], partner) && !CreatedBy(ddays[i], me) ==> o.ddays[i] == ddays[i])
  {
    var me := users[uid].email;
    var partner := ConnsOf(conns, uid)[connID].partnerEmail;
    Twin(users, conns, uid, connID);
    var e1 := EditAll(ddays, partner, me, Grant);
    GrantPass(ddays, partner, me);
    GrantPass(e1.docs, me, partner);
  }
  
  /** Accepting keeps the handlers' invariant. */
  lemma AcceptKeepsLinked(users: Users, conns: Links, nextId: nat, ddays: seq<EventDoc>, uid: string, connID: string, now: int)
    requires Linked(users, conns, nextId)
    ensures Linked(users, AcceptOutcome(users, conns, ddays, uid, connID, now).conns, nextId)
  {
    var o := AcceptOutcome(users, conns, ddays, uid, connID, now);
    AcceptActivates(users, conns, nextId, ddays, uid, connID, now);
    if uid in users && !o.reply.Fail? {
      var c := ConnsOf(conns, uid)[connID];
      var p := UserWithEmail(users, c.partnerEmail).value;
      ActivatedKeepsLinked(users, conns, nextId, uid, p, connID, now, o.conns);
    }
  }

  lemma ActivatedKeepsLinked(users: Users, conns: Links, nextId: nat, uid: string, p: string, connID: string, now: int, n: Links)
    requires Linked(users, conns, nextId) && uid in conns && connID in conns[uid]
    requires UserWithEmail(users, conns[uid][connID].partnerEmail) == Some(p) && p != uid && p in conns && connID in conns[p]
    requires n == conns[uid := conns[uid][connID := Activate(conns[uid][connID], p, now)]]
                       [p := conns[p][connID := Activate(conns[p][connID], uid, now)]]
    ensures Linked(users, n, nextId)
  {
    ActivatedSameDocs(conns, nextId, uid, p, connID, now, n);
    ActivatedMirrored(users, conns, nextId, uid, p, connID, now, n);
  }

  /** Every user keeps the documents they had, each with the partner it had. */
  predicate SameShape(conns: Links, n: Links)
  {
    && (forall w :: w in n ==> w in conns && n[w].Keys == conns[w].Keys)
    && (forall w, k :: w in n && k in n[w] ==> n[w][k].partnerEmail == conns[w][k].partnerEmail)
  }

  lemma SameShapeKeeps(conns: Links, n: Links, nextId: nat)
    requires SameShape(conns, n) && IdsBelow(conns, nextId) && OnePerPartner(conns)
    ensures IdsBelow(n, nextId) && OnePerPartner(n)
  {
  }

  /** The acceptance rewrites two documents in place, so ids and partners stay as they were. */
  lemma ActivatedSameDocs(conns: Links, nextId: nat, uid: string, p: string, connID: string, now: int, n: Links)
    requires IdsBelow(conns, nextId) && OnePerPartner(conns)
    requires uid in conns && connID in conns[uid] && p in conns && connID in conns[p] && p != uid
    requires n == conns[uid := conns[uid][connID := Activate(conns[uid][connID], p, now)]]
                       [p := conns[p][connID := Activate(conns[p][connID], uid, now)]]
    ensures IdsBelow(n, nextId) && OnePerPartner(n)
  {
    assert SameShape(conns, n);
    SameShapeKeeps(conns, n, nextId);
  }

  /** The activated pair is still mirrored, and every other document keeps its twin. */
  lemma ActivatedMirrored(users: Users, conns: Links, nextId: nat, uid: string, p: string, connID: string, now: int, n: Links)
    requires Linked(users, conns, nextId) && uid in conns && connID in conns[uid]
    requires UserWithEmail(users, conns[uid][connID].partnerEmail) == Some(p) && p != uid && p in conns && connID in conns[p]
    requires n == conns[uid := conns[uid][connID := Activate(conns[uid][connID], p, now)]]
                       [p := conns[p][connID := Activate(conns[p][connID], uid, now)]]
    ensures AllMirrored(users, n)
  {
    TwinOfTwin(users, conns, nextId, uid, connID);
    forall w, k | w in n && k in n[w]
      ensures Mirrored(users, n, w, k)
    {
      Twin(users, conns, w, k);
      if (w == uid || w == p) && k == connID {
      } else {
        var q := UserWithEmail(users, conns[w][k].partnerEmail).value;
        if k == connID && (q == uid || q == p) {
          TwinOfTwin(users, conns, nextId, w, k);
          assert false;
        }
        assert ConnsOf(n, q)[k] == ConnsOf(conns, q)[k];
      }
    }
  }

  // ---------------------------------------------------------------------
  // RejectInvitation

  /**
   * `RejectInvitation` as a value: the caller's profile must have an e-mail
   * and the caller must hold the document; the initiator's events lose the
   * receiver and the receiver's lose the initiator, then the caller's
   * document goes, and the partner's twin with it when the partner has an
   * account. A panic in either loop keeps the writes made before it and
   * deletes nothing.
   */
  function RejectOutcome(users: Users, conns: Links, ddays: seq<EventDoc>, uid: string, connID: string): Changed
  {
    if uid !in users then Changed(Panicked, conns, ddays)
    else
      var userEmail := users[uid].email;
      if userEmail == "" then Changed(Fail(Unauthorized, UserNotFound), conns, ddays)
      else
        var mine := ConnsOf(conns, uid);
        if connID !in mine then Changed(Fail(NotFound, InvitationNotFound), conns, ddays)
        else
          var partnerEmail := mine[connID].partnerEmail;
          var user1 := if mine[connID].role == Initiator then userEmail else partnerEmail;
          var user2 := if mine[connID].role == Initiator then partnerEmail else userEmail;
          var e1 := EditAll(ddays, user1, user2, Revoke);
          if e1.panicked then Changed(Panicked, conns, e1.docs)
          else
            var e2 := EditAll(e1.docs, user2, user1, Revoke);
            if e2.panicked then Changed(Panicked, conns, e2.docs)
            else
              var c1 := conns[uid := mine - {connID}];
              match UserWithEmail(users, partnerEmail)
              case None => Changed(Ok(ConnectionRemoved), c1, e2.docs)
              case Some(partnerID) =>
                Changed(Ok(ConnectionRemoved), c1[partnerID := ConnsOf(c1, partnerID) - {connID}], e2.docs)
  }

  /**
   * While the invariant holds, a rejection is refused only for a caller
   * without an e-mail or without the document; a refused or panicking one
   * deletes nothing, and a completed one deletes the document and its twin
   * and nothing else.
   */
  lemma RejectRemovesPair(users: Users, conns: Links, nextId: nat, ddays: seq<EventDoc>, uid: string, connID: string)
    requires Linked(users, conns, nextId)
    ensures var o := RejectOutcome(users, conns, ddays, uid, connID);
      o.reply.Fail? <==> uid in users && (users[uid].email == "" || connID !in ConnsOf(conns, uid))
    ensures var o := RejectOutcome(users, conns, ddays, uid, connID);
      !o.reply.Ok? ==> o.conns == conns
    ensures var o := RejectOutcome(users, conns, ddays, uid, connID);
      o.reply.Fail? ==> o.ddays == ddays
    ensures var o := RejectOutcome(users, conns, ddays, uid, connID);
      o.reply.Ok? ==>
        && uid in conns && connID in conns[uid]
        && UserWithEmail(users, conns[uid][connID].partnerEmail).Some?
        && var p := UserWithEmail(users, conns[uid][connID].partnerEmail).value;
        && p != uid && p in conns && connID in conns[p]
        && o.conns == conns[uid := conns[uid] - {connID}][p := conns[p] - {connID}]
  {
    if uid in users && connID in ConnsOf(conns, uid) {
      Twin(users, conns, uid, connID);
    }
  }

  /** A revoke pass that does not panic: the owner's events no longer list `who`, the rest of their list is kept in order, and no other event changes. */
  lemma RevokePass(docs: seq<EventDoc>, owner: string, who: string)
    requires !EditAll(docs, owner, who, Revoke).panicked
    ensures var r := EditAll(docs, owner, who, Revoke).docs;
      forall i :: 0 <= i < |docs| ==>
        if CreatedBy(docs[i], owner) then
          && !PanicsOn(docs[i]) && CreatedBy(r[i], owner) && !PanicsOn(r[i]) && r[i].id == docs[i].id
          && SharedWithOf(r[i]) == Without(SharedWithOf(docs[i]), who)
        else r[i] == docs[i]
  {
    EditAllEdits(docs, owner, who, Revoke);
    forall i | 0 <= i < |docs| {
      EditFacts(docs[i], owner, who, Revoke);
    }
  }

  /**
   * After a completed rejection neither partner is listed on an event the
   * other created (every other name stays, in order), and no other event
   * changes.
   */
  lemma RejectRevokes(users: Users, conns: Links, nextId: nat, ddays: seq<EventDoc>, uid: string, connID: string)
    requires Linked(users, conns, nextId)
    requires RejectOutcome(users, conns, ddays, uid, connID).reply.Ok?
    ensures uid in users && connID in ConnsOf(conns, uid)
    ensures var o := RejectOutcome(users, conns, ddays, uid, connID);
      var me := users[uid].email;
      var partner := ConnsOf(conns, uid)[connID].partnerEmail;
      && me != partner && |o.ddays| == |ddays|
      && forall i :: 0 <= i < |ddays| ==>
        && (CreatedBy(ddays[i], partner) ==>
              !PanicsOn(ddays[i]) && !PanicsOn(o.ddays[i]) &&
              SharedWithOf(o.ddays[i]) == Without(SharedWithOf(ddays[i]), me))
        && (CreatedBy(ddays[i], me) ==>
              !PanicsOn(ddays[i]) && !PanicsOn(o.ddays[i]) &&
              SharedWithOf(o.ddays[i]) == Without(SharedWithOf(ddays[i]), partner))
        && (!CreatedBy(ddays[i], partner) && !CreatedBy(ddays[i], me) ==> o.ddays[i] == ddays[i])
  {
    var me := users[uid].email;
    var c := ConnsOf(conns, uid)[connID];
    Twin(users, conns, uid, connID);
    var user1 := if c.role == Initiator then me else c.partnerEmail;
    var user2 := if c.role == Initiator then c.partnerEmail else me;
    var e1 := EditAll(ddays, user1, user2, Revoke);
    RevokePass(ddays, user1, user2);
    RevokePass(e1.docs, user2, user1);
  }

  /** A rejection keeps the handlers' invariant. */
  lemma RejectKeepsLinked(users: Users, conns: Links, nextId: nat, ddays: seq<EventDoc>, uid: string, connID: string)
    requires Linked(users, conns, nextId)
    ensures Linked(users, RejectOutcome(users, conns, ddays, uid, connID).conns, nextId)
  {
    var o := RejectOutcome(users, conns, ddays, uid, connID);
    RejectRemovesPair(users, conns, nextId, ddays, uid, connID);
    if o.reply.Ok? {
      var p := UserWithEmail(users, conns[uid][connID].partnerEmail).value;
      DeletedKeepsLinked(users, conns, nextId, uid, p, connID, o.conns);
    }
  }

  lemma DeletedKeepsLinked(users: Users, conns: Links, nextId: nat, uid: string, p: string, connID: string, n: Links)
    requires Linked(users, conns, nextId) && uid in conns && connID in conns[uid]
    requires UserWithEmail(users, conns[uid][connID].partnerEmail) == Some(p) && p != uid && p in conns && connID in conns[p]
    requires n == conns[uid := conns[uid] - {connID}][p := conns[p] - {connID}]
    ensures Linked(users, n, nextId)
  {
    DeletedSubset(conns, nextId, uid, p, connID, n);
    DeletedMirrored(users, conns, nextId, uid, p, connID, n);
  }

  /** Deleting documents keeps ids below the counter and partners distinct. */
  lemma DeletedSubset(conns: Links, nextId: nat, uid: string, p: string, connID: string, n: Links)
    requires IdsBelow(conns, nextId) && OnePerPartner(conns) && uid in conns && p in conns
    requires n == conns[uid := conns[uid] - {connID}][p := conns[p] - {connID}]
    ensures IdsBelow(n, nextId) && OnePerPartner(n)
  {
    assert forall w, k :: w in n && k in n[w] ==> w in conns && k in conns[w] && n[w][k] == conns[w][k];
  }

  /** The remaining documents keep their twins: a twin of a deleted document is the other deleted one. */
  lemma DeletedMirrored(users: Users, conns: Links, nextId: nat, uid: string, p: string, connID: string, n: Links)
    requires Linked(users, conns, nextId) && uid in conns && connID in conns[uid]
    requires UserWithEmail(users, conns[uid][connID].partnerEmail) == Some(p) && p != uid && p in conns && connID in conns[p]
    requires n == conns[uid := conns[uid] - {connID}][p := conns[p] - {connID}]
    ensures AllMirrored(users, n)
  {
    TwinOfTwin(users, conns, nextId, uid, connID);
    forall w, k | w in n && k in n[w]
      ensures Mirrored(users, n, w, k)
    {
      assert w in conns && k in conns[w] && n[w][k] == conns[w][k];
      Twin(users, conns, w, k);
      var q := UserWithEmail(users, conns[w][k].partnerEmail).value;
      if k == connID && (q == uid || q == p) {
        TwinOfTwin(users, conns, nextId, w, k);
        assert false;
      }
      assert ConnsOf(n, q)[k] == ConnsOf(conns, q)[k];
    }
  }

  /**
   * Removing a connection right after accepting it undoes the acceptance:
   * both documents are gone, every other connection document is as before
   * the acceptance, and each event of either partner that did not list the
   * other has its former list back.
   */
  lemma AcceptThenRejectRestores(users: Users, conns: Links, nextId: nat, ddays: seq<EventDoc>, uid: string, connID: string, now: int)
    requires Linked(users, conns, nextId)
    requires uid in users && users[uid].email != ""
    requires AcceptOutcome(users, conns, ddays, uid, connID, now).reply.Ok?
    ensures connID in ConnsOf(conns, uid)
    ensures var a := AcceptOutcome(users, conns, ddays, uid, connID, now);
      var r := RejectOutcome(users, a.conns, a.ddays, uid, connID);
      var me := users[uid].email;
      var partner := ConnsOf(conns, uid)[connID].partnerEmail;
      var p := UserWithEmail(users, partner).value;
      && r.reply.Ok?
      && r.conns == conns[uid := conns[uid] - {connID}][p := conns[p] - {connID}]
      && Restored(ddays, r.ddays, me, partner)
  {
    AcceptThenRejectConns(users, conns, nextId, ddays, uid, connID, now);
    AcceptThenRejectEvents(users, conns, nextId, ddays, uid, connID, now);
  }

  lemma AcceptThenRejectConns(users: Users, conns: Links, nextId: nat, ddays: seq<EventDoc>, uid: string, connID: string, now: int)
    requires Linked(users, conns, nextId)
    requires uid in users && users[uid].email != ""
    requires AcceptOutcome(users, conns, ddays, uid, connID, now).reply.Ok?
    ensures connID in ConnsOf(conns, uid)
    ensures var a := AcceptOutcome(users, conns, ddays, uid, connID, now);
      var r := RejectOutcome(users, a.conns, a.ddays, uid, connID);
      var p := UserWithEmail(users, ConnsOf(conns, uid)[connID].partnerEmail).value;
      !r.reply.Fail? && (r.reply.Ok? ==> r.conns == conns[uid := conns[uid] - {connID}][p := conns[p] - {connID}])
  {
    var a := AcceptOutcome(users, conns, ddays, uid, connID, now);
    AcceptActivates(users, conns, nextId, ddays, uid, connID, now);
    AcceptKeepsLinked(users, conns, nextId, ddays, uid, connID, now);
    var c := conns[uid][connID];
    var p := UserWithEmail(users, c.partnerEmail).value;
    Twin(users, conns, uid, connID);
    RemovePairAfterUpdate(conns, a.conns, uid, p, connID, Activate(c, p, now), Activate(conns[p][connID], uid, now));
    RejectRemovesPair(users, a.conns, nextId, a.ddays, uid, connID);
  }

  /** Deleting a document and its twin erases any earlier update of the two. */
  lemma RemovePairAfterUpdate(conns: Links, n: Links, uid: string, p: string, connID: string, x: Conn, y: Conn)
    requires uid != p && uid in conns && p in conns
    requires n == conns[uid := conns[uid][connID := x]][p := conns[p][connID := y]]
    ensures uid in n && connID in n[uid] && n[uid][connID] == x && p in n && connID in n[p]
    ensures n[uid := n[uid] - {connID}][p := n[p] - {connID}] == conns[uid := conns[uid] - {connID}][p := conns[p] - {connID}]
  {
    assert n[uid] - {connID} == conns[uid] - {connID};
    assert n[p] - {connID} == conns[p] - {connID};
  }

  lemma AcceptThenRejectEvents(users: Users, conns: Links, nextId: nat, ddays: seq<EventDoc>, uid: string, connID: string, now: int)
    requires Linked(users, conns, nextId)
    requires uid in users && users[uid].email != ""
    requires AcceptOutcome(users, conns, ddays, uid, connID, now).reply.Ok?
    ensures connID in ConnsOf(conns, uid)
    ensures var a := AcceptOutcome(users, conns, ddays, uid, connID, now);
      var r := RejectOutcome(users, a.conns, a.ddays, uid, connID);
      !r.reply.Panicked? && Restored(ddays, r.ddays, users[uid].email, ConnsOf(conns, uid)[connID].partnerEmail)
  {
    var a := AcceptOutcome(users, conns, ddays, uid, connID, now);
    AcceptActivates(users, conns, nextId, ddays, uid, connID, now);
    AcceptShares(users, conns, nextId, ddays, uid, connID, now);
    var me := users[uid].email;
    var partner := conns[uid][connID].partnerEmail;
    assert a.conns[uid][connID].partnerEmail == partner && a.conns[uid][connID].role == Receiver;
    SharesThenRevokes(ddays, a.ddays, me, partner);
    RejectOfReceiver(users, a.conns, a.ddays, uid, connID);
  }

  /** A receiver's rejection revokes on the initiator's events first, then on the receiver's. */
  lemma RejectOfReceiver(users: Users, conns: Links, ddays: seq<EventDoc>, uid: string, connID: string)
    requires uid in users && users[uid].email != ""
    requires connID in ConnsOf(conns, uid) && ConnsOf(conns, uid)[connID].role == Receiver
    ensures var me := users[uid].email;
      var partner := ConnsOf(conns, uid)[connID].partnerEmail;
      var e1 := EditAll(ddays, partner, me, Revoke);
      var e2 := EditAll(e1.docs, me, partner, Revoke);
      var r := RejectOutcome(users, conns, ddays, uid, connID);
      !e1.panicked && !e2.panicked ==> !r.reply.Panicked? && r.ddays == e2.docs
  {
  }

  /**
   * `after` holds the events of `before` with the partners' names back as
   * they were: an event of one partner that converts and did not list the
   * other converts again to the same list, and other events are as before.
   */
  predicate Restored(before: seq<EventDoc>, after: seq<EventDoc>, me: string, partner: string)
  {
    && |after| == |before|
    && forall i :: 0 <= i < |before| ==>
      && (CreatedBy(before[i], partner) && !PanicsOn(before[i]) && me !in SharedWithOf(before[i]) ==>
            !PanicsOn(after[i]) && SharedWithOf(after[i]) == SharedWithOf(before[i]))
      && (CreatedBy(before[i], me) && !PanicsOn(before[i]) && partner !in SharedWithOf(before[i]) ==>
            !PanicsOn(after[i]) && SharedWithOf(after[i]) == SharedWithOf(before[i]))
      && (!CreatedBy(before[i], partner) && !CreatedBy(before[i], me) ==> after[i] == before[i])
  }

  /** The two revoke passes of a rejection over the events an acceptance shared. */
  lemma SharesThenRevokes(ddays: seq<EventDoc>, g: seq<EventDoc>, me: string, partner: string)
    requires me != partner && |g| == |ddays|
    requires forall i :: 0 <= i < |ddays| ==>
      && (CreatedBy(ddays[i], partner) ==>
            !PanicsOn(ddays[i]) && CreatedBy(g[i], partner) && !PanicsOn(g[i]) && SharedWithOf(g[i]) == WithName(SharedWithOf(ddays[i]), me))
      && (CreatedBy(ddays[i], me) ==>
            !PanicsOn(ddays[i]) && CreatedBy(g[i], me) && !PanicsOn(g[i]) && SharedWithOf(g[i]) == WithName(SharedWithOf(ddays[i]), partner))
      && (!CreatedBy(ddays[i], partner) && !CreatedBy(ddays[i], me) ==> g[i] == ddays[i])
    ensures !EditAll(g, partner, me, Revoke).panicked
    ensures var e1 := EditAll(g, partner, me, Revoke).docs;
      !EditAll(e1, me, partner, Revoke).panicked && Restored(ddays, EditAll(e1, me, partner, Revoke).docs, me, partner)
  {
    RejectNoPanic(g, partner, me);
    var e1 := EditAll(g, partner, me, Revoke).docs;
    RevokePass(g, partner, me);
    RejectNoPanic(e1, me, partner);
    var e2 := EditAll(e1, me, partner, Revoke).docs;
    RevokePass(e1, me, partner);
    forall i | 0 <= i < |ddays|
      ensures CreatedBy(ddays[i], partner) && !PanicsOn(ddays[i]) && me !in SharedWithOf(ddays[i]) ==>
        !PanicsOn(e2[i]) && SharedWithOf(e2[i]) == SharedWithOf(ddays[i])
      ensures CreatedBy(ddays[i], me) && !PanicsOn(ddays[i]) && partner !in SharedWithOf(ddays[i]) ==>
        !PanicsOn(e2[i]) && SharedWithOf(e2[i]) == SharedWithOf(ddays[i])
    {
      if CreatedBy(ddays[i], partner) {
        WithNameFacts(SharedWithOf(ddays[i]), me);
      }
      if CreatedBy(ddays[i], me) {
        WithNameFacts(SharedWithOf(ddays[i]), partner);
      }
    }
  }

  /** A revoke pass over events whose owner's entries all convert does not panic. */
  lemma RejectNoPanic(docs: seq<EventDoc>, owner: string, who: string)
    requires forall i :: 0 <= i < |docs| && CreatedBy(docs[i], owner) ==> !PanicsOn(docs[i])
    ensures !EditAll(docs, owner, who, Revoke).panicked
  {
    EditAllPanics(docs, owner, who, Revoke);
    forall i | 0 <= i < |docs|
      ensures Edit(docs[i], owner, who, Revoke).Some?
    {
      EditFacts(docs[i], owner, who, Revoke);
    }
  }

  // ---------------------------------------------------------------------
  // The handlers over the stored collections

  /** The `users` collection with each user's `connections` subcollection, and the source of fresh ids. */
  class ConnectionStore {
    var users: Users
    var conns: Links
    var nextId: nat

    /** The invariant the three handlers keep. */
    predicate Valid()
      reads this
    {
      Linked(users, conns, nextId)
    }

    /** A store of accounts with distinct e-mails and no connections yet. */
    constructor (accounts: Users)
      requires UniqueEmails(accounts)
      ensures users == accounts && conns == map[] && nextId == 0
      ensures Valid()
    {
      users := accounts;
      conns := map[];
      nextId := 0;
    }

    /** The checks of `InviteConnection` in the handler's order, each query run on the stored documents. */
    method CheckInvite(uid: string, email: string) returns (plan: InvitePlan)
      requires uid in users
      ensures plan == PlanInvite(users, conns, uid, email)
    {
      if email == "" {
        return Refused(Fail(BadRequest, BindingError));
      }
      var valid := IsValidEmail(email);
      if !valid {
        return Refused(Fail(BadRequest, InvalidEmail));
      }
      var target := ToLower(TrimSpace(email));
      if target == users[uid].email {
        return Refused(Fail(BadRequest, SelfInvite));
      }
      var targetUser := UserWithEmail(users, target);
      if targetUser.None? {
        return Refused(Fail(NotFound, UserNotFound));
      }
      var mine := ConnsOf(conns, uid);
      var existing := FirstWithPartner(mine, target);
      if existing.Some? {
        return Refused(Fail(BadRequest, "Connection " + StatusName(mine[existing.value].status) + " already"));
      }
      plan := Send(target, targetUser.value);
    }

    /** `InviteConnection`: the checks, then the two pending documents under a fresh id. */
    method Invite(uid: string, email: string, now: int) returns (r: Reply<string>)
      modifies this
      ensures Sent(r, conns, nextId) == InviteOutcome(old(users), old(conns), old(nextId), uid, email, now)
      ensures users == old(users)
      ensures old(Valid()) ==> Valid()
    {
      if uid !in users {
        return Panicked;
      }
      var plan := CheckInvite(uid, email);
      InviteByPlan(users, conns, nextId, uid, email, now);
      if plan.Refused? {
        return plan.reply;
      }
      if Valid() {
        InviteKeepsLinked(users, conns, nextId, uid, email, now);
      }
      var id := NatToString(nextId);
      conns := Invited(conns, uid, users[uid].email, plan.target, plan.targetID, id, now);
      nextId := nextId + 1;
      r := Ok(id);
    }

    /** `AcceptInvitation`: the checks, the transaction, then the two grant loops over `events`. */
    method Accept(uid: string, connID: string, events: EventStore, now: int) returns (r: Reply<string>)
      modifies this, events
      ensures Changed(r, conns, events.ddays) == AcceptOutcome(old(users), old(conns), old(events.ddays), uid, connID, now)
      ensures users == old(users) && nextId == old(nextId) && events.nextId == old(events.nextId)
      ensures old(Valid()) ==> Valid()
      ensures old(events.Valid()) ==> events.Valid()
    {
      if uid !in users {
        return Panicked;
      }
      var userEmail := users[uid].email;
      var mine := ConnsOf(conns, uid);
      if connID !in mine {
        return Fail(NotFound, InvitationNotFound);
      }
      if mine[connID].role != Receiver {
        return Fail(Forbidden, NotAuthorized);
      }
      var inviterEmail := mine[connID].partnerEmail;
      var inviter := UserWithEmail(users, inviterEmail);
      if inviter.None? {
        return Fail(InternalError, InviterNotFound);
      }
      var active := Activated(conns, uid, inviter.value, connID, now);
      if active.None? {
        return Fail(InternalError, AcceptFailed);
      }
      if Valid() {
        AcceptKeepsLinked(users, conns, nextId, events.ddays, uid, connID, now);
      }
      conns := active.value;
      ghost var docs := events.ddays;
      if events.Valid() {
        EditAllKeepsWellFormed(docs, events.nextId, inviterEmail, userEmail, Grant);
      }
      var panicked := GrantEvents(events, inviterEmail, userEmail);
      if panicked {
        return Panicked;
      }
      ghost var docs1 := events.ddays;
      if events.Valid() {
        EditAllKeepsWellFormed(docs1, events.nextId, userEmail, inviterEmail, Grant);
      }
      panicked := GrantEvents(events, userEmail, inviterEmail);
      if panicked {
        return Panicked;
      }
      r := Ok(InvitationAccepted);
    }

    /** `RejectInvitation`: the checks, the two revoke loops over `events`, then both deletes. */
    method Reject(uid: string, connID: string, events: EventStore) returns (r: Reply<string>)
      modifies this, events
      ensures Changed(r, conns, events.ddays) == RejectOutcome(old(users), old(conns), old(events.ddays), uid, connID)
      ensures users == old(users) && nextId == old(nextId) && events.nextId == old(events.nextId)
      ensures old(Valid()) ==> Valid()
      ensures old(events.Valid()) ==> events.Valid()
    {
      if uid !in users {
        return Panicked;
      }
      var userEmail := users[uid].email;
      if userEmail == "" {
        return Fail(Unauthorized, UserNotFound);
      }
      var mine := ConnsOf(conns, uid);
      if connID !in mine {
        return Fail(NotFound, InvitationNotFound);
      }
      var partnerEmail := mine[connID].partnerEmail;
      var user1 := if mine[connID].role == Initiator then userEmail else partnerEmail;
      var user2 := if mine[connID].role == Initiator then partnerEmail else userEmail;
      if Valid() {
        RejectKeepsLinked(users, conns, nextId, events.ddays, uid, connID);
      }
      ghost var docs := events.ddays;
      if events.Valid() {
        EditAllKeepsWellFormed(docs, events.nextId, user1, user2, Revoke);
      }
      var panicked := RevokeEvents(events, user1, user2);
      if panicked {
        return Panicked;
      }
      ghost var docs1 := events.ddays;
      if events.Valid() {
        EditAllKeepsWellFormed(docs1, events.nextId, user2, user1, Revoke);
      }
      panicked := RevokeEvents(events, user2, user1);
      if panicked {
        return Panicked;
      }
      conns := conns[uid := mine - {connID}];
      var partner := UserWithEmail(users, partnerEmail);
      if partner.Some? {
        conns := conns[partner.value := ConnsOf(conns, partner.value) - {connID}];
      }
      r := Ok(ConnectionRemoved);
    }
  }
}
