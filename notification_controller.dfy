/** The per-user notification endpoints (controller/NotificationController.java)
    over the notification table. The current user is the row the principal's
    email resolves to, passed in as its id (None when there is no such user). */
module NotificationController {

  import opened Wrappers
  import opened Http
  import opened Sequences

  /** `createdAt` is a timestamp, kept as a number. */
  datatype Notification = Notification(id: int, owner: int, title: string, message: string, read: bool, createdAt: int)

  /** The fields the listing copies out of each notification. */
  datatype NotificationView = NotificationView(id: int, title: string, message: string, isRead: bool, createdAt: int)

  function View(n: Notification): NotificationView {
    NotificationView(n.id, n.title, n.message, n.read, n.createdAt)
  }

  function BelongsTo(uid: int): Notification -> bool {
    (n: Notification) => n.owner == uid
  }

  function UnreadOf(uid: int): Notification -> bool {
    (n: Notification) => n.owner == uid && !n.read
  }

  function CreatedKey(n: Notification): int {
    n.createdAt
  }

  /** `findByUserOrderByCreatedAtDesc`: the user's rows, newest first. */
  function UserRowsNewestFirst(rows: seq<Notification>, uid: int): (r: seq<Notification>)
    ensures forall n :: n in r <==> n in rows && n.owner == uid
    ensures |r| == |Filter(rows, BelongsTo(uid))|
    ensures forall i, j :: 0 <= i < j < |r| ==> r[i].createdAt >= r[j].createdAt
  {
    var mine := Filter(rows, BelongsTo(uid));
    var r := SortDesc(mine, CreatedKey);
    SortDescSameElements(mine, CreatedKey);
    assert NonIncreasing(r, CreatedKey);
    r
  }

  /** The number `getUnreadCount` reports. */
  function UnreadCount(rows: seq<Notification>, uid: int): nat {
    |Filter(rows, UnreadOf(uid))|
  }

  function HasId(id: int): Notification -> bool {
    (n: Notification) => n.id == id
  }

  /** The position of the row with this id (`findById`). */
  function IndexOf(rows: seq<Notification>, id: int): Option<nat> {
    FirstWhere(rows, HasId(id))
  }

  /** The table after every row of `uid` has been marked read. */
  function ReadAllFor(rows: seq<Notification>, uid: int): (r: seq<Notification>)
    ensures |r| == |rows|
    ensures forall i :: 0 <= i < |rows| ==> r[i] == if rows[i].owner == uid then rows[i].(read := true) else rows[i]
  {
    seq(|rows|, i requires 0 <= i < |rows| => if rows[i].owner == uid then rows[i].(read := true) else rows[i])
  }

  /** After marking all read, the user has no unread notification. */
  lemma {:induction false} NoUnreadAfterReadAll(rows: seq<Notification>, uid: int)
    ensures UnreadCount(ReadAllFor(rows, uid), uid) == 0
  {
    if rows != [] {
      NoUnreadAfterReadAll(rows[1..], uid);
      assert ReadAllFor(rows, uid)[1..] == ReadAllFor(rows[1..], uid);
    }
  }

  /** Marking another user's rows read leaves this user's unread count alone. */
  lemma {:induction false} ReadAllForOthersKeepsCount(rows: seq<Notification>, uid: int, other: int)
    requires other != uid
    ensures UnreadCount(ReadAllFor(rows, other), uid) == UnreadCount(rows, uid)
  {
    if rows != [] {
      ReadAllForOthersKeepsCount(rows[1..], uid, other);
      assert ReadAllFor(rows, other)[1..] == ReadAllFor(rows[1..], other);
    }
  }

  /** Marking one unread notification of the user read lowers the count by
      one; marking a read one changes nothing. */
  lemma MarkOneLowersCount(rows: seq<Notification>, i: nat, uid: int)
    requires i < |rows| && rows[i].owner == uid
    ensures UnreadCount(rows[i := rows[i].(read := true)], uid) == UnreadCount(rows, uid) - (if rows[i].read then 0 else 1)
  {
    FilterCountUpdate(rows, i, rows[i].(read := true), UnreadOf(uid));
  }

  ghost predicate UniqueIds(rows: seq<Notification>) {
    forall i, j :: 0 <= i < j < |rows| ==> rows[i].id != rows[j].id
  }

  /** Removing the row at `i` removes exactly the rows with its id, and ids
      stay unique. */
  lemma RemoveAtKeepsOthers(rows: seq<Notification>, i: nat)
    requires UniqueIds(rows) && i < |rows|
    ensures UniqueIds(rows[..i] + rows[i + 1..])
    ensures forall n :: n in rows[..i] + rows[i + 1..] <==> n in rows && n.id != rows[i].id
  {
    var after := rows[..i] + rows[i + 1..];
    assert forall j :: 0 <= j < |after| ==> after[j] == if j < i then rows[j] else rows[j + 1];
    forall n | n in rows && n.id != rows[i].id ensures n in after {
      var j :| 0 <= j < |rows| && rows[j] == n;
      if j < i { assert after[j] == n; } else { assert after[j - 1] == n; }
    }
  }

  /** The notification table, in storage order. */
  class Controller {
    var rows: seq<Notification>

    ghost predicate Valid()
      reads this
    {
      UniqueIds(rows)
    }

    constructor (initial: seq<Notification>)
      requires UniqueIds(initial)
      ensures Valid() && rows == initial
    {
      rows := initial;
    }

    /** `getUserNotifications`. */
    method GetUserNotifications(current: Option<int>) returns (r: Response<seq<NotificationView>>)
      ensures current.None? ==> r == Fail(Unauthorized, "User not found")
      ensures current.Some? ==> r.Ok? && |r.body| == |Filter(rows, BelongsTo(current.value))|
      ensures current.Some? ==> forall i :: 0 <= i < |r.body| ==>
                r.body[i] == View(UserRowsNewestFirst(rows, current.value)[i])
    {
      if current.None? {
        return Fail(Unauthorized, "User not found");
      }
      var mine := UserRowsNewestFirst(rows, current.value);
      r := Ok(seq(|mine|, i requires 0 <= i < |mine| => View(mine[i])));
    }

    /** `markAsRead`. */
    method MarkAsRead(current: Option<int>, id: int) returns (r: Response<string>)
      requires Valid()
      modifies this
      ensures Valid()
      ensures current.None? ==> r == Fail(Unauthorized, "User not found") && rows == old(rows)
      ensures current.Some? && IndexOf(old(rows), id).None? ==>
                r == Fail(NotFound, "Notification not found") && rows == old(rows)
      ensures current.Some? && IndexOf(old(rows), id).Some? ==>
                var i := IndexOf(old(rows), id).value;
                if old(rows)[i].owner != current.value then
                  r == Fail(Forbidden, "Not authorized to access this notification") && rows == old(rows)
                else
                  r == Ok("Notification marked as read") && rows == old(rows)[i := old(rows)[i].(read := true)]
    {
      if current.None? {
        return Fail(Unauthorized, "User not found");
      }
      var found := IndexOf(rows, id);
      if found.None? {
        return Fail(NotFound, "Notification not found");
      }
      var i := found.value;
      if rows[i].owner != current.value {
        return Fail(Forbidden, "Not authorized to access this notification");
      }
      rows := rows[i := rows[i].(read := true)];
      r := Ok("Notification marked as read");
    }

    /** `markAllAsRead`: a loop setting the read flag of each of the user's rows. */
    method MarkAllAsRead(current: Option<int>) returns (r: Response<string>)
      requires Valid()
      modifies this
      ensures Valid()
      ensures current.None? ==> r == Fail(Unauthorized, "User not found") && rows == old(rows)
      ensures current.Some? ==> r == Ok("All notifications marked as read") && rows == ReadAllFor(old(rows), current.value)
    {
      if current.None? {
        return Fail(Unauthorized, "User not found");
      }
      var uid := current.value;
      var i := 0;
      while i < |rows|
        invariant 0 <= i <= |rows| == |old(rows)|
        invariant forall j :: 0 <= j < i ==> rows[j] == ReadAllFor(old(rows), uid)[j]
        invariant forall j :: i <= j < |rows| ==> rows[j] == old(rows)[j]
      {
        if rows[i].owner == uid {
          rows := rows[i := rows[i].(read := true)];
        }
        i := i + 1;
      }
      r := Ok("All notifications marked as read");
    }

    /** `deleteNotification`. */
    method DeleteNotification(current: Option<int>, id: int) returns (r: Response<string>)
      requires Valid()
      modifies this
      ensures Valid()
      ensures current.None? ==> r == Fail(Unauthorized, "User not found") && rows == old(rows)
      ensures current.Some? && IndexOf(old(rows), id).None? ==>
                r == Fail(NotFound, "Notification not found") && rows == old(rows)
      ensures current.Some? && IndexOf(old(rows), id).Some? ==>
                var i := IndexOf(old(rows), id).value;
                if old(rows)[i].owner != current.value then
                  r == Fail(Forbidden, "Not authorized to delete this notification") && rows == old(rows)
                else
                  r == Ok("Notification deleted") && rows == old(rows)[..i] + old(rows)[i + 1..]
                  && forall n :: n in rows <==> n in old(rows) && n.id != id
    {
      if current.None? {
        return Fail(Unauthorized, "User not found");
      }
      var found := IndexOf(rows, id);
      if found.None? {
        return Fail(NotFound, "Notification not found");
      }
      var i := found.value;
      if rows[i].owner != current.value {
        return Fail(Forbidden, "Not authorized to delete this notification");
      }
      RemoveAtKeepsOthers(rows, i);
      rows := rows[..i] + rows[i + 1..];
      r := Ok("Notification deleted");
    }

    /** `getUnreadCount`. */
    method GetUnreadCount(current: Option<int>) returns (r: Response<nat>)
      ensures current.None? ==> r == Fail(Unauthorized, "User not found")
      ensures current.Some? ==> r == Ok(UnreadCount(rows, current.value))
    {
      if current.None? {
        return Fail(Unauthorized, "User not found");
      }
      var uid := current.value;
      var count := 0;
      var i := 0;
      while i < |rows|
        invariant 0 <= i <= |rows|
        invariant count == |Filter(rows[..i], UnreadOf(uid))|
      {
        FilterAppend(rows[..i], [rows[i]], UnreadOf(uid));
        assert rows[..i + 1] == rows[..i] + [rows[i]];
        if !rows[i].read && rows[i].owner == uid {
          count := count + 1;
        }
        i := i + 1;
      }
      assert rows[..i] == rows;
      r := Ok(count);
    }
  }
}
