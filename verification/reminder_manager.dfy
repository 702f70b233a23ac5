/** The reminder panel: the periodic check that notifies due reminders and
    switches them off, the split into upcoming and past reminders, and the
    form's validation. One check at a given `now` is modelled; the timer that
    repeats it is not. */
module ReminderManager {
  import opened Wrappers
  import opened JournalTypes
  import opened Seqs
  import opened Text
  import opened ReminderModel
  import opened ReminderRoutes

  /** A system notification: the reminder's title, its message as the body,
      and its id as the tag. */
  datatype Notification = Notification(title: string, body: string, tag: Id)

  /** A reminder the check fires: still active and scheduled no later than now. */
  predicate Due(r: Reminder, now: Millis) {
    r.isActive && r.scheduledTime <= now
  }

  function DueAt(now: Millis): Reminder -> bool {
    (r: Reminder) => Due(r, now)
  }

  function NotificationOf(r: Reminder): (n: Notification)
    ensures n.title == r.title && n.body == r.message && n.tag == r.id
  {
    Notification(r.title, r.message, r.id)
  }

  /** The notifications for the given reminders, in order. */
  function Notifications(rs: seq<Reminder>): (r: seq<Notification>)
    ensures |r| == |rs|
  {
    if rs == [] then [] else Notifications(Init(rs)) + [NotificationOf(Last(rs))]
  }

  /** The ids of the given reminders, in order. */
  function Ids(rs: seq<Reminder>): (r: seq<Id>)
    ensures |r| == |rs|
  {
    if rs == [] then [] else Ids(Init(rs)) + [Last(rs).id]
  }

  lemma {:induction false} ListsAt(rs: seq<Reminder>, k: nat)
    requires k < |rs|
    ensures Ids(rs)[k] == rs[k].id && Notifications(rs)[k] == NotificationOf(rs[k])
    decreases |rs|
  {
    if k < |rs| - 1 {
      ListsAt(Init(rs), k);
    }
  }

  /** A notification is shown for, and an update sent to, each reminder given
      and nothing else: the notifications are tagged with exactly their ids. */
  lemma ListsMatch(rs: seq<Reminder>)
    ensures forall k :: 0 <= k < |rs| ==> Ids(rs)[k] == rs[k].id && Notifications(rs)[k].tag == rs[k].id
  {
    forall k | 0 <= k < |rs| ensures Ids(rs)[k] == rs[k].id && Notifications(rs)[k].tag == rs[k].id {
      ListsAt(rs, k);
    }
  }

  /** The reminders a check at `now` fires, in list order. */
  function DueReminders(rs: seq<Reminder>, now: Millis): (r: seq<Reminder>)
    ensures IsSubseq(r, rs)
    ensures forall x :: x in r <==> x in rs && Due(x, now)
  {
    Filter(rs, DueAt(now))
  }

  lemma ListsSnoc(rs: seq<Reminder>, r: Reminder)
    ensures Ids(rs + [r]) == Ids(rs) + [r.id]
    ensures Notifications(rs + [r]) == Notifications(rs) + [NotificationOf(r)]
  {
    assert Init(rs + [r]) == rs && Last(rs + [r]) == r;
  }

  /** One more reminder seen: its id and notification are added when it is due. */
  lemma DueStep(rs: seq<Reminder>, now: Millis, i: nat)
    requires i < |rs|
    ensures var due, due' := DueReminders(rs[..i], now), DueReminders(rs[..i + 1], now);
      && Ids(due') == Ids(due) + (if Due(rs[i], now) then [rs[i].id] else [])
      && Notifications(due') == Notifications(due) + (if Due(rs[i], now) then [NotificationOf(rs[i])] else [])
  {
    assert rs[..i + 1] == rs[..i] + [rs[i]];
    FilterSnoc(rs[..i], rs[i], DueAt(now));
    ListsSnoc(DueReminders(rs[..i], now), rs[i]);
  }

  /** `checkReminders`: for each due reminder, a notification (shown only when
      the user granted permission) and an update switching it off. */
  method CheckReminders(reminders: seq<Reminder>, now: Millis, granted: bool)
    returns (shown: seq<Notification>, switchedOff: seq<Id>)
    ensures switchedOff == Ids(DueReminders(reminders, now))
    ensures shown == if granted then Notifications(DueReminders(reminders, now)) else []
  {
    shown, switchedOff := [], [];
    for i := 0 to |reminders|
      invariant switchedOff == Ids(DueReminders(reminders[..i], now))
      invariant shown == if granted then Notifications(DueReminders(reminders[..i], now)) else []
    {
      DueStep(reminders, now, i);
      var r := reminders[i];
      if r.isActive && r.scheduledTime <= now {
        if granted {
          shown := shown + [NotificationOf(r)];
        }
        switchedOff := switchedOff + [r.id];
      }
    }
    assert reminders[..|reminders|] == reminders;
  }

  /** The list after the `{ isActive: false }` updates for `ids` are applied. */
  function SwitchOff(rs: seq<Reminder>, ids: seq<Id>): (r: seq<Reminder>)
    ensures |r| == |rs|
    ensures forall i :: 0 <= i < |rs| ==>
      r[i] == if rs[i].id in ids then rs[i].(isActive := false) else rs[i]
    ensures forall i :: 0 <= i < |rs| ==>
      && r[i] == rs[i].(isActive := r[i].isActive)
      && (r[i].isActive <==> rs[i].isActive && rs[i].id !in ids)
  {
    seq(|rs|, i requires 0 <= i < |rs| => if rs[i].id in ids then rs[i].(isActive := false) else rs[i])
  }

  ghost predicate UniqueReminderIds(rs: seq<Reminder>) {
    forall i, j :: 0 <= i < j < |rs| ==> rs[i].id != rs[j].id
  }

  /** A due reminder's id is among those switched off. */
  lemma DueIsSwitchedOff(rs: seq<Reminder>, now: Millis, r: Reminder)
    requires r in rs && Due(r, now)
    ensures r.id in Ids(DueReminders(rs, now))
  {
    var due := DueReminders(rs, now);
    var k :| 0 <= k < |due| && due[k] == r;
    ListsAt(due, k);
  }

  /** With distinct ids, only a due reminder's id is among those switched off. */
  lemma SwitchedOffIsDue(rs: seq<Reminder>, now: Millis, i: nat)
    requires UniqueReminderIds(rs) && i < |rs|
    requires rs[i].id in Ids(DueReminders(rs, now))
    ensures Due(rs[i], now)
  {
    var due := DueReminders(rs, now);
    var ids := Ids(due);
    var k :| 0 <= k < |ids| && ids[k] == rs[i].id;
    ListsAt(due, k);
    assert due[k] in rs;
    var j :| 0 <= j < |rs| && rs[j] == due[k];
    assert rs[j].id == rs[i].id;
  }

  /** With distinct ids, a check switches off exactly the due reminders: a due
      one becomes inactive with nothing else changed, any other stays as it was. */
  lemma SwitchOffOnlyDue(rs: seq<Reminder>, now: Millis)
    requires UniqueReminderIds(rs)
    ensures var after := SwitchOff(rs, Ids(DueReminders(rs, now)));
      forall i :: 0 <= i < |rs| ==>
        after[i] == if Due(rs[i], now) then rs[i].(isActive := false) else rs[i]
  {
    var ids := Ids(DueReminders(rs, now));
    forall i | 0 <= i < |rs| ensures rs[i].id in ids <==> Due(rs[i], now) {
      if Due(rs[i], now) {
        DueIsSwitchedOff(rs, now, rs[i]);
      }
      if rs[i].id in ids {
        SwitchedOffIsDue(rs, now, i);
      }
    }
  }

  /** Once the switch-off updates are in, a second check at the same moment
      fires nothing. */
  lemma SecondCheckSilent(rs: seq<Reminder>, now: Millis)
    ensures DueReminders(SwitchOff(rs, Ids(DueReminders(rs, now))), now) == []
  {
    var due := DueReminders(rs, now);
    var ids := Ids(due);
    var after := SwitchOff(rs, ids);
    forall x | x in after ensures !DueAt(now)(x) {
      var i :| 0 <= i < |after| && after[i] == x;
      if Due(rs[i], now) {
        DueIsSwitchedOff(rs, now, rs[i]);
      }
    }
    FilterNone(after, DueAt(now));
  }

  /** Upcoming: active and scheduled after now. */
  predicate Upcoming(r: Reminder, now: Millis) {
    r.isActive && r.scheduledTime > now
  }

  function UpcomingAt(now: Millis): Reminder -> bool {
    (r: Reminder) => Upcoming(r, now)
  }

  /** Past: switched off or already scheduled. */
  function PastAt(now: Millis): Reminder -> bool {
    (r: Reminder) => !r.isActive || r.scheduledTime <= now
  }

  /** `activeReminders`. */
  function ActiveReminders(rs: seq<Reminder>, now: Millis): (r: seq<Reminder>)
    ensures IsSubseq(r, rs)
    ensures forall x :: x in r <==> x in rs && Upcoming(x, now)
  {
    Filter(rs, UpcomingAt(now))
  }

  /** `pastReminders`. */
  function PastReminders(rs: seq<Reminder>, now: Millis): (r: seq<Reminder>)
    ensures IsSubseq(r, rs)
    ensures forall x :: x in r <==> x in rs && !Upcoming(x, now)
  {
    Filter(rs, PastAt(now))
  }

  /** At one moment every reminder is listed in exactly one of the two lists,
      the lists together are as long as the reminders, and every reminder a
      check fires is a past one. */
  lemma UpcomingPastPartition(rs: seq<Reminder>, now: Millis)
    ensures forall x :: x in rs ==> (x in ActiveReminders(rs, now) <==> x !in PastReminders(rs, now))
    ensures |ActiveReminders(rs, now)| + |PastReminders(rs, now)| == |rs|
    ensures forall x :: x in DueReminders(rs, now) ==> x in PastReminders(rs, now)
  {
    FilterComplement(rs, UpcomingAt(now), PastAt(now));
  }

  /** `pastReminders.slice(0, 5)`: the first five past reminders at most. */
  function ShownPast(rs: seq<Reminder>, now: Millis): (r: seq<Reminder>)
    ensures |r| <= 5
    ensures |r| == if |PastReminders(rs, now)| < 5 then |PastReminders(rs, now)| else 5
    ensures r <= PastReminders(rs, now)
    ensures forall x :: x in r ==> x in rs && !Upcoming(x, now)
  {
    var past := PastReminders(rs, now);
    var r := Take(past, 5);
    assert forall i :: 0 <= i < |r| ==> r[i] in past;
    r
  }

  /** What the form submits: `Omit<Reminder, 'id' | 'userId' | 'createdAt'>`. */
  datatype ReminderInput = ReminderInput(title: string, message: string, scheduledTime: Millis, isActive: bool)

  /** `handleSubmit`: nothing is sent when the trimmed title or message is
      empty or no time was picked; otherwise the trimmed texts, the picked time
      (read by `parseTime`) and an active flag. */
  function SubmitReminder(title: string, message: string, scheduledTime: string, parseTime: string -> Millis)
    : (r: Option<ReminderInput>)
    ensures r.None? <==> Trim(title) == "" || Trim(message) == "" || scheduledTime == ""
    ensures r.Some? ==> r.value.title == Trim(title) && r.value.message == Trim(message)
    ensures r.Some? ==> r.value.scheduledTime == parseTime(scheduledTime) && r.value.isActive
    ensures r.Some? ==> r.value.title != "" && Trim(r.value.title) == r.value.title
    ensures r.Some? ==> r.value.message != "" && Trim(r.value.message) == r.value.message
  {
    TrimIdempotent(title);
    TrimIdempotent(message);
    if Trim(title) == "" || Trim(message) == "" || scheduledTime == "" then None
    else Some(ReminderInput(Trim(title), Trim(message), parseTime(scheduledTime), true))
  }

  /** The JSON body the submitted reminder reaches the server as. */
  function BodyOf(input: ReminderInput): ReminderBody {
    ReminderBody(None, Some(input.title), Some(input.message), Some(input.scheduledTime), Some(input.isActive), None)
  }

  /** A reminder the form lets through is accepted by the server's schema once
      the route stamps its owner: it is saved with the trimmed texts, active,
      and trimming its texts again changes nothing. */
  lemma SubmittedIsAccepted(title: string, message: string, scheduledTime: string,
                            parseTime: string -> Millis, u: Id, id: Id, now: Millis)
    requires SubmitReminder(title, message, scheduledTime, parseTime).Some?
    ensures var input := SubmitReminder(title, message, scheduledTime, parseTime).value;
      var made := NewReminderDoc(Stamped(BodyOf(input), u, now), id, now);
      && made.Success?
      && made.value.fields == ReminderFields(u, Trim(title), Trim(message), parseTime(scheduledTime), true, now)
      && Trim(input.title) == input.title && Trim(input.message) == input.message
  {
    TrimIdempotent(title);
    TrimIdempotent(message);
  }
}
