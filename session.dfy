/**
 * What the two bots share: the gateway's message events, the trigger filter
 * of their `on_message` listeners, Python truthiness of optional text, and the
 * life cycle of a view (active until stopped or timed out, never restarted).
 */
module Session {
  import opened Wrappers

  /** A Discord user's snowflake id. */
  type UserId = nat

  /** A message-creation event: its author, whether a human wrote it, and its text (absent for some messages). */
  datatype MessageEvent = MessageEvent(author: UserId, isHuman: bool, content: Option<string>)

  /** Python's truthiness of an optional string: neither `None` nor `""`. */
  predicate Truthy(s: Option<string>)
  {
    s.Some? && s.value != ""
  }

  /**
   * The listener's early return `not event.is_human or not event.content or
   * not event.content == trigger`, negated: the event starts a session.
   * The emptiness test is subsumed by the exact comparison, so a session
   * starts exactly for a human-written message whose whole text is `trigger`.
   */
  function IsTrigger(e: MessageEvent, trigger: string): (r: bool)
    requires trigger != ""
    ensures r <==> e.isHuman && e.content == Some(trigger)
  {
    if !e.isHuman || !Truthy(e.content) || !(e.content == Some(trigger)) then false else true
  }

  /** Why a view stopped: its stop button, or its timer. */
  datatype StopReason = Explicit | TimedOut

  /** A view accepts button presses until it stops; nothing leads out of `Stopped`. */
  datatype Phase = Active | Stopped(reason: StopReason)

  /** The bot's message as displayed: its text and whether it still carries the view's buttons. */
  datatype Message = Message(content: Option<string>, hasComponents: bool)
}
