/** The stored shape of a reminder: required paths and the defaults. */
module ReminderModel {
  import opened Wrappers
  import opened JournalTypes
  import opened Mongoose

  datatype ReminderFields = ReminderFields(
    userId: Id, title: string, message: string,
    scheduledTime: Millis, isActive: bool, createdAt: Millis)

  /** A stored reminder document: its `_id` and everything else. */
  datatype ReminderDoc = ReminderDoc(docId: Id, fields: ReminderFields)

  /** A JSON object offered to `new Reminder(...)`; each property may be missing. */
  datatype ReminderBody = ReminderBody(
    userId: Option<Id>, title: Option<string>, message: Option<string>,
    scheduledTime: Option<Millis>, isActive: Option<bool>, createdAt: Option<Millis>)

  /** The paths that fail validation, in schema order. */
  function ReminderErrors(b: ReminderBody): (errs: seq<string>)
    ensures errs == [] <==>
      Required(b.userId) && RequiredString(b.title) && RequiredString(b.message) && Required(b.scheduledTime)
  {
    Check(Required(b.userId), "userId") + Check(RequiredString(b.title), "title")
      + Check(RequiredString(b.message), "message") + Check(Required(b.scheduledTime), "scheduledTime")
  }

  /** `new Reminder(b).save()` with `_id` `id` at time `now`. */
  function NewReminderDoc(b: ReminderBody, id: Id, now: Millis): (r: Result<ReminderDoc, seq<string>>)
    ensures r.Failure? <==> ReminderErrors(b) != []
    ensures r.Failure? ==> r.error == ReminderErrors(b)
  {
    var errs := ReminderErrors(b);
    if errs != [] then Failure(errs)
    else
      Success(ReminderDoc(id, ReminderFields(
        b.userId.value, b.title.value, b.message.value, b.scheduledTime.value,
        if b.isActive.Some? then b.isActive.value else true,
        if b.createdAt.Some? then b.createdAt.value else now)))
  }

  /** A saved reminder keeps the body's values; it is active and created now
      unless the body says otherwise. */
  lemma NewReminderDefaults(b: ReminderBody, id: Id, now: Millis)
    requires NewReminderDoc(b, id, now).Success?
    ensures var f := NewReminderDoc(b, id, now).value.fields;
      && Some(f.userId) == b.userId && Some(f.title) == b.title && Some(f.message) == b.message
      && f.title != "" && f.message != "" && Some(f.scheduledTime) == b.scheduledTime
      && (b.isActive.None? ==> f.isActive) && (b.isActive.Some? ==> f.isActive == b.isActive.value)
      && (b.createdAt.None? ==> f.createdAt == now)
  {
  }
}
