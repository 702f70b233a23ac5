/** The `/api/reminders` routes: every handler runs for an authenticated
    requester over the reminder collection, kept in natural (insertion) order. */
module ReminderRoutes {
  import opened Wrappers
  import opened JournalTypes
  import opened Http
  import opened Seqs
  import opened Sorting
  import opened ReminderModel

  /** A reminder as the routes send it: `_id` renamed to `id`. */
  datatype ReminderView = ReminderView(id: Id, fields: ReminderFields)

  /** The `$set` object of `PUT /:id`: the request body itself. */
  datatype ReminderSet = ReminderSet(
    userId: Option<Id>, title: Option<string>, message: Option<string>,
    scheduledTime: Option<Millis>, isActive: Option<bool>, createdAt: Option<Millis>)

  function ViewOf(d: ReminderDoc): ReminderView {
    ReminderView(d.docId, d.fields)
  }

  function ReminderIdIs(id: Id): ReminderDoc -> bool {
    (d: ReminderDoc) => d.docId == id
  }

  function IsOwnedBy(u: Id): ReminderDoc -> bool {
    (d: ReminderDoc) => d.fields.userId == u
  }

  /** No two stored reminders share an `_id`. */
  ghost predicate UniqueIds(docs: seq<ReminderDoc>) {
    forall i, j :: 0 <= i < j < |docs| ==> docs[i].docId != docs[j].docId
  }

  lemma SameIdSameReminder(docs: seq<ReminderDoc>, i: nat, k: nat)
    requires UniqueIds(docs) && i < |docs| && k < |docs| && docs[i].docId == docs[k].docId
    ensures i == k
  {
  }

  /** `findById`: the position of the reminder with `_id` `id`, or |docs|. */
  function IndexOfReminder(docs: seq<ReminderDoc>, id: Id): (i: nat)
    ensures i <= |docs|
    ensures i < |docs| ==> docs[i].docId == id
    ensures i == |docs| <==> forall d :: d in docs ==> d.docId != id
  {
    FirstIndex(docs, ReminderIdIs(id))
  }

  /** The owner's reminders in natural order: `find({ userId })`. */
  function OwnedBy(docs: seq<ReminderDoc>, u: Id): (r: seq<ReminderDoc>)
    ensures forall d :: d in r <==> d in docs && d.fields.userId == u
  {
    Filter(docs, IsOwnedBy(u))
  }

  function Scheduled(d: ReminderDoc): int {
    d.fields.scheduledTime
  }

  /** Reminders as the routes send them, in the same order. */
  function Views(ds: seq<ReminderDoc>): (r: seq<ReminderView>)
    ensures |r| == |ds|
    ensures forall i :: 0 <= i < |ds| ==> r[i] == ViewOf(ds[i])
    ensures forall v :: v in r <==> ReminderDoc(v.id, v.fields) in ds
  {
    if ds == [] then []
    else
      assert ds == [ds[0]] + ds[1..];
      [ViewOf(ds[0])] + Views(ds[1..])
  }

  /** `GET /`: the requester's reminders, sorted soonest first, as views. */
  function ListReminders(docs: seq<ReminderDoc>, u: Id): (r: seq<ReminderView>)
    ensures |r| == |OwnedBy(docs, u)|
  {
    Views(SortBy(OwnedBy(docs, u), Scheduled))
  }

  /** The listing holds exactly the requester's reminders, earliest scheduled first. */
  lemma ListRemindersSpec(docs: seq<ReminderDoc>, u: Id)
    ensures var r := ListReminders(docs, u);
      && (forall v :: v in r <==> ReminderDoc(v.id, v.fields) in docs && v.fields.userId == u)
      && (forall i, j :: 0 <= i < j < |r| ==> r[i].fields.scheduledTime <= r[j].fields.scheduledTime)
  {
    var owned := OwnedBy(docs, u);
    var sorted := SortBy(owned, Scheduled);
    SortByMembers(owned, Scheduled);
    assert forall i, j :: 0 <= i < j < |sorted| ==> Scheduled(sorted[i]) <= Scheduled(sorted[j]);
  }

  /** A user's listing depends on their own documents only. */
  lemma SameOwnedSameListing(d1: seq<ReminderDoc>, d2: seq<ReminderDoc>, u: Id)
    requires OwnedBy(d1, u) == OwnedBy(d2, u)
    ensures ListReminders(d1, u) == ListReminders(d2, u)
  {
  }

  /** The check `PUT /:id` and `DELETE /:id` make: 404 when the reminder does
      not exist, then 401 when the requester does not own it. */
  function Access(docs: seq<ReminderDoc>, u: Id, id: Id): (s: Status)
    ensures s != ServerError
    ensures s == NotFound <==> forall d :: d in docs ==> d.docId != id
    ensures s == Ok ==> exists d :: d in docs && d.docId == id && d.fields.userId == u
    ensures s == Unauthorized ==> exists d :: d in docs && d.docId == id && d.fields.userId != u
  {
    var i := IndexOfReminder(docs, id);
    if i == |docs| then NotFound
    else if docs[i].fields.userId != u then Unauthorized
    else Ok
  }

  /** With unique `_id`s, access to an existing reminder is granted exactly to its owner. */
  lemma AccessIsOwnership(docs: seq<ReminderDoc>, u: Id, k: nat)
    requires UniqueIds(docs) && k < |docs|
    ensures Access(docs, u, docs[k].docId) == Ok <==> docs[k].fields.userId == u
    ensures Access(docs, u, docs[k].docId) == Unauthorized <==> docs[k].fields.userId != u
  {
    var i := IndexOfReminder(docs, docs[k].docId);
    assert docs[k] in docs;
    SameIdSameReminder(docs, i, k);
  }

  /** The `$set` of `PUT /:id` exactly as written: every property of the body
      replaces the stored one, `userId` included. */
  function SetFieldsAsWritten(f: ReminderFields, s: ReminderSet): (r: ReminderFields)
    ensures s == ReminderSet(None, None, None, None, None, None) ==> r == f
  {
    f.(userId := if s.userId.Some? then s.userId.value else f.userId,
       title := if s.title.Some? then s.title.value else f.title,
       message := if s.message.Some? then s.message.value else f.message,
       scheduledTime := if s.scheduledTime.Some? then s.scheduledTime.value else f.scheduledTime,
       isActive := if s.isActive.Some? then s.isActive.value else f.isActive,
       createdAt := if s.createdAt.Some? then s.createdAt.value else f.createdAt)
  }

  /** As written, an owner's update whose body names another `userId` moves the
      reminder into that user's listing and out of the owner's. */
  lemma AsWrittenUpdateGivesReminderAway(docs: seq<ReminderDoc>, k: nat, s: ReminderSet)
    requires k < |docs| && s.userId.Some? && s.userId.value != docs[k].fields.userId
    ensures var d := ReminderDoc(docs[k].docId, SetFieldsAsWritten(docs[k].fields, s));
      && ViewOf(d) in ListReminders(docs[k := d], s.userId.value)
      && ViewOf(d) !in ListReminders(docs[k := d], docs[k].fields.userId)
  {
    var d := ReminderDoc(docs[k].docId, SetFieldsAsWritten(docs[k].fields, s));
    assert docs[k := d][k] == d;
    ListRemindersSpec(docs[k := d], s.userId.value);
    ListRemindersSpec(docs[k := d], docs[k].fields.userId);
  }

  /** The update the route evidently intends: the owner stays as it was. */
  function SetFields(f: ReminderFields, s: ReminderSet): (r: ReminderFields)
    ensures r.userId == f.userId
  {
    SetFieldsAsWritten(f, s.(userId := None))
  }

  /** Only the properties present in the body change; deactivating a reminder
      (`{isActive: false}`) touches nothing else. */
  lemma SetFieldsChangesOnlyPresent(f: ReminderFields, s: ReminderSet)
    ensures var r := SetFields(f, s);
      && (s.title.None? ==> r.title == f.title) && (s.title.Some? ==> r.title == s.title.value)
      && (s.message.None? ==> r.message == f.message) && (s.message.Some? ==> r.message == s.message.value)
      && (s.scheduledTime.None? ==> r.scheduledTime == f.scheduledTime)
      && (s.scheduledTime.Some? ==> r.scheduledTime == s.scheduledTime.value)
      && (s.isActive.None? ==> r.isActive == f.isActive) && (s.isActive.Some? ==> r.isActive == s.isActive.value)
      && (s.createdAt.None? ==> r.createdAt == f.createdAt) && (s.createdAt.Some? ==> r.createdAt == s.createdAt.value)
    ensures SetFields(f, ReminderSet(None, None, None, None, Some(false), None)) == f.(isActive := false)
  {
  }

  /** The body of `POST /` once the handler has stamped it with the owner and
      the creation time. */
  function Stamped(b: ReminderBody, u: Id, now: Millis): (r: ReminderBody)
    ensures r.userId == Some(u) && r.createdAt == Some(now)
    ensures r.title == b.title && r.message == b.message && r.scheduledTime == b.scheduledTime
  {
    b.(userId := Some(u), createdAt := Some(now))
  }

  /** A created reminder belongs to the requester, is created now and is active
      unless the body says otherwise; creation fails exactly when the title or
      message is missing or empty or the scheduled time is missing. */
  lemma CreateStampsOwner(b: ReminderBody, u: Id, id: Id, now: Millis)
    ensures var made := NewReminderDoc(Stamped(b, u, now), id, now);
      && (made.Success? <==> Mongoose.RequiredString(b.title) && Mongoose.RequiredString(b.message)
                             && b.scheduledTime.Some?)
      && (made.Success? ==> made.value.fields.userId == u && made.value.fields.createdAt == now
                            && (b.isActive.None? ==> made.value.fields.isActive))
  {
    var made := NewReminderDoc(Stamped(b, u, now), id, now);
    if made.Success? {
      NewReminderDefaults(Stamped(b, u, now), id, now);
    }
  }

  lemma RemoveKeepsUnique(docs: seq<ReminderDoc>, i: nat)
    requires UniqueIds(docs) && i < |docs|
    ensures UniqueIds(docs[..i] + docs[i + 1..])
    ensures forall d :: d in docs[..i] + docs[i + 1..] ==> d.docId != docs[i].docId
  {
    var t := docs[..i] + docs[i + 1..];
    forall a | 0 <= a < |t| ensures t[a] == docs[if a < i then a else a + 1] {
    }
  }

  class ReminderCollection {
    var docs: seq<ReminderDoc>

    ghost predicate Valid()
      reads this
    {
      UniqueIds(docs)
    }

    constructor ()
      ensures Valid() && docs == []
    {
      docs := [];
    }

    /** `POST /`: the stamped body is validated and stored, or 500 and nothing changes. */
    method Create(requester: Id, body: ReminderBody, freshId: Id, now: Millis)
      returns (status: Status, sent: Option<ReminderView>)
      requires Valid()
      requires forall d :: d in docs ==> d.docId != freshId
      modifies this
      ensures Valid()
      ensures var made := NewReminderDoc(Stamped(body, requester, now), freshId, now);
        if made.Success? then
          status == Ok && docs == old(docs) + [made.value] && sent == Some(ViewOf(made.value))
        else
          status == ServerError && docs == old(docs) && sent == None
      ensures forall u :: u != requester ==> ListReminders(docs, u) == ListReminders(old(docs), u)
    {
      var made := NewReminderDoc(Stamped(body, requester, now), freshId, now);
      if made.Failure? {
        return ServerError, None;
      }
      var d := made.value;
      CreateStampsOwner(body, requester, freshId, now);
      forall u | u != requester ensures ListReminders(docs + [d], u) == ListReminders(docs, u) {
        FilterSnocFailing(docs, d, IsOwnedBy(u));
        SameOwnedSameListing(docs + [d], docs, u);
      }
      docs := docs + [d];
      status, sent := Ok, Some(ViewOf(d));
    }

    /** `PUT /:id`: after the ownership check the body's properties are set;
        the update itself is not validated. */
    method Update(requester: Id, id: Id, patch: ReminderSet)
      returns (status: Status, sent: Option<ReminderView>)
      requires Valid()
      modifies this
      ensures Valid()
      ensures status == Access(old(docs), requester, id)
      ensures status != Ok ==> docs == old(docs) && sent == None
      ensures status == Ok ==>
        var i := IndexOfReminder(old(docs), id);
        && docs == old(docs)[i := ReminderDoc(id, SetFields(old(docs)[i].fields, patch))]
        && sent == Some(ViewOf(docs[i]))
      ensures forall u :: u != requester ==> ListReminders(docs, u) == ListReminders(old(docs), u)
    {
      var i := IndexOfReminder(docs, id);
      if i == |docs| {
        return NotFound, None;
      }
      if docs[i].fields.userId != requester {
        return Unauthorized, None;
      }
      var d := ReminderDoc(id, SetFields(docs[i].fields, patch));
      forall u | u != requester ensures ListReminders(docs[i := d], u) == ListReminders(docs, u) {
        FilterUpdateAt(docs, i, d, IsOwnedBy(u));
        SameOwnedSameListing(docs[i := d], docs, u);
      }
      docs := docs[i := d];
      status, sent := Ok, Some(ViewOf(d));
    }

    /** `DELETE /:id`: after the ownership check the reminder is gone, so a
        second delete of the same id answers 404. */
    method Delete(requester: Id, id: Id) returns (status: Status)
      requires Valid()
      modifies this
      ensures Valid()
      ensures status == Access(old(docs), requester, id)
      ensures status != Ok ==> docs == old(docs)
      ensures status == Ok ==>
        var i := IndexOfReminder(old(docs), id);
        docs == old(docs)[..i] + old(docs)[i + 1..]
      ensures status == Ok ==> forall u :: Access(docs, u, id) == NotFound
      ensures forall u :: u != requester ==> ListReminders(docs, u) == ListReminders(old(docs), u)
    {
      var i := IndexOfReminder(docs, id);
      if i == |docs| {
        return NotFound;
      }
      if docs[i].fields.userId != requester {
        return Unauthorized;
      }
      forall u | u != requester ensures ListReminders(docs[..i] + docs[i + 1..], u) == ListReminders(docs, u) {
        FilterRemoveAt(docs, i, IsOwnedBy(u));
        SameOwnedSameListing(docs[..i] + docs[i + 1..], docs, u);
      }
      RemoveKeepsUnique(docs, i);
      docs := docs[..i] + docs[i + 1..];
      status := Ok;
    }
  }
}
