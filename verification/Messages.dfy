/**
 The durable notification queue (app/notifications/queue.py), as a value.

 A row is never deleted; its status moves
   Pending -> InFlight -> Sent | Failed | (back to) Pending,   Pending -> Dropped.
 `Dropped` is the status the source stores as 'cancelled'.
 */
module Messages {
  import opened Prelude
  import opened Ordering

  const BATCH := 20

  datatype Config = Config(lead: int, maxAttempts: int, suppress: bool)

  datatype Kind = CreatedMsg | UpdatedMsg | CancelledMsg | ReminderMsg | CustomMsg

  datatype Status = Pending | InFlight | Sent | Failed | Dropped

  /** `at` is scheduled_at; `queued` is the clock reading that entered the row. */
  datatype Row = Row(
    reservation: Option<int>, kind: Kind, phone: string, at: int,
    status: Status, attempts: nat, queued: int)

  datatype Queue = Queue(rows: map<int, Row>, next: int)

  const NO_MESSAGES := Queue(map[], 1)

  /** The kill switch drops every kind but the agent's own messages. */
  predicate Suppressed(cfg: Config, kind: Kind) {
    cfg.suppress && kind != CustomMsg
  }

  function Enqueue(cfg: Config, q: Queue, reservation: Option<int>, kind: Kind, phone: string, at: int,
        now: int): Queue
  {
    if Suppressed(cfg, kind) then q
    else Queue(q.rows[q.next := Row(reservation, kind, phone, at, Pending, 0, now)], q.next + 1)
  }

  predicate PendingReminder(row: Row, reservation: int) {
    row.reservation == Some(reservation) && row.kind == ReminderMsg && row.status == Pending
  }

  /** cancel_pending_reminders_for. */
  function DropReminders(q: Queue, reservation: int): Queue {
    q.(rows := map id | id in q.rows ::
      if PendingReminder(q.rows[id], reservation) then q.rows[id].(status := Dropped) else q.rows[id])
  }

  /** The kinds a worker tick takes. */
  function OnlyKind(cfg: Config): Option<Kind> {
    if cfg.suppress then Some(CustomMsg) else None
  }

  predicate Due(row: Row, now: int, only: Option<Kind>) {
    row.status == Pending && row.at <= now && (only.Some? ==> row.kind == only.value)
  }

  /** The sort key of each due row. */
  function DueKeys(q: Queue, now: int, only: Option<Kind>): Keys {
    map id | id in q.rows && Due(q.rows[id], now, only) :: (q.rows[id].at, 0)
  }

  /** The rows one claim takes: the due rows with fewer than `limit` due rows before them. */
  function Claimable(q: Queue, now: int, only: Option<Kind>, limit: nat): set<int> {
    var keys := DueKeys(q, now, only);
    set id | id in keys && |Ahead(keys, id)| < limit
  }

  function Claim(q: Queue, ids: set<int>): Queue {
    q.(rows := map id | id in q.rows ::
      if id in ids then q.rows[id].(status := InFlight, attempts := q.rows[id].attempts + 1) else q.rows[id])
  }

  function MarkSent(q: Queue, id: int): Queue {
    if id in q.rows then q.(rows := q.rows[id := q.rows[id].(status := Sent)]) else q
  }

  function Pow2(n: nat): nat {
    if n == 0 then 1 else 2 * Pow2(n - 1)
  }

  /** The delay before the next try, after `attempts` tries: doubling, capped at an hour. */
  function Backoff(attempts: nat): int {
    Min(60 * Pow2(attempts), 3600) * SECOND
  }

  function MarkFailedOrRetry(q: Queue, id: int, maxAttempts: int, now: int): Queue {
    if id !in q.rows then q
    else if q.rows[id].attempts >= maxAttempts then q.(rows := q.rows[id := q.rows[id].(status := Failed)])
    else q.(rows := q.rows[id := q.rows[id].(status := Pending, at := now + Backoff(q.rows[id].attempts))])
  }
}
