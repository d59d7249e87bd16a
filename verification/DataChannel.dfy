/**
 An append-only log with one sender and many readers, and one-shot notifications that are swapped out on every send.

 Each function below is one critical section of the code: a lock is taken, something small happens, it is released.
 `DataChannelState` performs the same sections on fields. `ChannelRuns` interleaves them in every possible way.
 */
module DataChannel {
  import opened Wrappers
  import opened Streams

  datatype ChannelStatus = Running | Failed | Cancelled(lastCheckpoint: nat, validUntil: nat)

  /** `created` notifications exist so far, `closed` are those whose waiters were woken. */
  datatype Channel<B> = Channel(
    data: seq<Item<B>>,
    notification: Option<nat>,
    status: ChannelStatus,
    created: nat,
    closed: set<nat>)

  function Create<B>(): Channel<B> {
    Channel([], Some(0), Running, 1, {})
  }

  /** Appends an item and puts a fresh notification in place of the one that is to be closed next. */
  function Push<B>(c: Channel<B>, item: Item<B>): (Channel<B>, Option<nat>) {
    (c.(data := c.data + [item], notification := Some(c.created), created := c.created + 1), c.notification)
  }

  function Notify<B>(c: Channel<B>, note: nat): Channel<B> {
    c.(closed := c.closed + {note})
  }

  function TakeNotification<B>(c: Channel<B>): (Channel<B>, Option<nat>) {
    (c.(notification := None), c.notification)
  }

  /** A reader's view of the status: go on reading, or stop with the end, the error or a broken index. */
  datatype StatusRead = Go(finished: bool) | AtEnd | SenderFailed | PastEnd

  function ReadStatus<B>(c: Channel<B>, index: nat): StatusRead {
    match c.status
    case Running => Go(false)
    case Failed => SenderFailed
    case Cancelled(_, validUntil) =>
      if index == validUntil then AtEnd else if index >= validUntil then PastEnd else Go(true)
  }

  datatype DataRead<+B> = Found(item: Item<B>) | Missing(note: Option<nat>)

  function ReadData<B>(c: Channel<B>, index: nat): DataRead<B> {
    if index < |c.data| then Found(c.data[index]) else Missing(c.notification)
  }

  class DataChannelState<B> {
    var data: seq<Item<B>>
    var notification: Option<nat>
    var status: ChannelStatus
    var created: nat
    var closed: set<nat>

    ghost function Abs(): Channel<B> reads this {
      Channel(data, notification, status, created, closed)
    }

    constructor ()
      ensures Abs() == Create()
    {
      data, notification, status, created, closed := [], Some(0), Running, 1, {};
    }

    /** `send`: append under the lock, then wake everybody who waits for the notification that was replaced. */
    method Send(item: Item<B>)
      requires notification.Some?
      modifies this
      ensures Abs() == var (c, note) := Push(old(Abs()), item); Notify(c, note.value)
    {
      var note := notification;
      data := data + [item];
      notification, created := Some(created), created + 1;
      closed := closed + {note.value};
    }

    /** `cancel_with_status`: publish the status first, then take the notification away and wake its waiters. */
    method CancelWithStatus(newStatus: ChannelStatus)
      modifies this
      ensures Abs() == var (c, note) := TakeNotification(old(Abs()).(status := newStatus));
                       if note.Some? then Notify(c, note.value) else c
    {
      status := newStatus;
      var note := notification;
      notification := None;
      if note.Some? {
        closed := closed + {note.value};
      }
    }
  }
}
