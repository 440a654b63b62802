/**
 * Domain notifications and the handler that collects them. Publishing a
 * notification on the bus ends in `Handle`, so the model appends to the
 * handler directly.
 */
module Notifications {

  /** A (key, value) pair such as ("Line 7: Cpf", "CPF is required."). */
  datatype Notification = Notification(key: string, value: string)

  /** The collector: a list that `Handle` appends to and `Dispose` replaces
      with an empty one. */
  class NotificationHandler {
    var notifications: seq<Notification>

    /** A fresh handler holds nothing. */
    constructor ()
      ensures notifications == []
    {
      notifications := [];
    }

    /** Appends the message after everything handled so far; never rejects. */
    method Handle(message: Notification)
      modifies this
      ensures notifications == old(notifications) + [message]
    {
      notifications := notifications + [message];
    }

    /** Everything handled since construction or the last `Dispose`, in
        handling order. */
    method GetNotifications() returns (all: seq<Notification>)
      ensures all == notifications
    {
      all := notifications;
    }

    method HasNotifications() returns (any: bool)
      ensures any <==> |notifications| > 0
    {
      var all := GetNotifications();
      any := |all| != 0;
    }

    /** Empties the list. */
    method Dispose()
      modifies this
      ensures notifications == []
    {
      notifications := [];
    }
  }

  /** After a fresh handler has handled a sequence of messages, it holds
      exactly those messages, in order, and reports notifications exactly when
      there was at least one; after `Dispose` it reports none. */
  method HandlerLifecycle(messages: seq<Notification>) returns (held: seq<Notification>, any: bool, anyAfterDispose: bool)
    ensures held == messages
    ensures any <==> messages != []
    ensures !anyAfterDispose
  {
    var handler := new NotificationHandler();
    var i := 0;
    while i < |messages|
      invariant 0 <= i <= |messages|
      invariant handler.notifications == messages[..i]
    {
      handler.Handle(messages[i]);
      i := i + 1;
    }
    assert messages[..i] == messages;
    held := handler.GetNotifications();
    any := handler.HasNotifications();
    handler.Dispose();
    anyAfterDispose := handler.HasNotifications();
  }
}
