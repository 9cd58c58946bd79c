/** The SQL tables as the program updates them in place. */
module Storage {
  import B = Booking
  import opened Messages

  class Database {
    var rooms: map<int, B.Room>
    var tables: map<int, B.Table>
    var reservations: map<int, B.Reservation>
    var nextRoom: int
    var nextTable: int
    var nextReservation: int
    var notifications: map<int, Row>
    var nextNotification: int

    function Floor(): B.Floor
      reads this
    {
      B.Floor(rooms, tables, reservations, nextRoom, nextTable, nextReservation)
    }

    function Queue(): Queue
      reads this
    {
      Messages.Queue.Queue(notifications, nextNotification)
    }

    constructor ()
      ensures Floor() == B.EMPTY && Queue() == NO_MESSAGES
    {
      rooms, tables, reservations, notifications := map[], map[], map[], map[];
      nextRoom, nextTable, nextReservation, nextNotification := 1, 1, 1, 1;
    }
  }
}
