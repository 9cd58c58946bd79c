/** The statements of app/notifications/queue.py, on the stored rows. */
module NotificationQueue {
  import opened Prelude
  import opened Ordering
  import opened Messages
  import opened Storage

  method EnqueueRow(conn: Database, cfg: Config, reservation: Option<int>, kind: Kind, phone: string, at: int, now: int)
    returns (id: Option<int>)
    modifies conn`notifications, conn`nextNotification
    ensures conn.Queue() == Enqueue(cfg, old(conn.Queue()), reservation, kind, phone, at, now)
    ensures conn.Floor() == old(conn.Floor())
    ensures id == if Suppressed(cfg, kind) then None else Some(old(conn.nextNotification))
  {
    if cfg.suppress && kind != CustomMsg {
      return None;
    }
    id := Some(conn.nextNotification);
    var row := Row(reservation, kind, phone, at, Pending, 0, now);
    conn.notifications := conn.notifications[conn.nextNotification := row];
    conn.nextNotification := conn.nextNotification + 1;
  }

  /** Answers the number of rows it cancels. */
  method CancelPendingRemindersFor(conn: Database, reservation: int) returns (count: nat)
    modifies conn`notifications
    ensures conn.Queue() == DropReminders(old(conn.Queue()), reservation)
    ensures conn.Floor() == old(conn.Floor())
    ensures count == |set id | id in old(conn.notifications)
                       && PendingReminder(old(conn.notifications)[id], reservation)|
  {
    var rows := set id | id in conn.notifications && PendingReminder(conn.notifications[id], reservation);
    count := |rows|;
    conn.notifications := map id | id in conn.notifications ::
      if id in rows then conn.notifications[id].(status := Dropped) else conn.notifications[id];
  }

  /** Claims up to `limit` due rows: the SELECT, its LIMIT and the UPDATE. */
  method PickDue(conn: Database, limit: nat, only: Option<Kind>, now: int) returns (ids: seq<int>)
    modifies conn`notifications
    ensures Elements(ids) == Claimable(old(conn.Queue()), now, only, limit)
    ensures Distinct(ids)
    ensures conn.Queue() == Claim(old(conn.Queue()), Elements(ids))
    ensures conn.Floor() == old(conn.Floor())
  {
    var keys := DueKeys(conn.Queue(), now, only);
    var ordered := OrderBy(keys);
    ids := ordered[..Min(limit, |ordered|)];
    PrefixIsLowRank(keys, ordered, limit);
    if ids == [] {
      assert conn.Queue() == Claim(conn.Queue(), {});
      return;
    }
    conn.notifications := map id | id in conn.notifications ::
      if id in ids
      then conn.notifications[id].(status := InFlight, attempts := conn.notifications[id].attempts + 1)
      else conn.notifications[id];
  }

  method MarkRowSent(conn: Database, id: int)
    modifies conn`notifications
    ensures conn.Queue() == MarkSent(old(conn.Queue()), id)
    ensures conn.Floor() == old(conn.Floor())
  {
    if id in conn.notifications {
      conn.notifications := conn.notifications[id := conn.notifications[id].(status := Sent)];
    }
  }

  method MarkRowFailedOrRetry(conn: Database, id: int, maxAttempts: int, now: int)
    modifies conn`notifications
    ensures conn.Queue() == MarkFailedOrRetry(old(conn.Queue()), id, maxAttempts, now)
    ensures conn.Floor() == old(conn.Floor())
  {
    if id !in conn.notifications {
      return;
    }
    var attempts := conn.notifications[id].attempts;
    if attempts >= maxAttempts {
      conn.notifications := conn.notifications[id := conn.notifications[id].(status := Failed)];
      return;
    }
    var backoff := Min(60 * Pow2(attempts), 3600) * SECOND;
    conn.notifications := conn.notifications[id := conn.notifications[id].(status := Pending, at := now + backoff)];
  }
}
