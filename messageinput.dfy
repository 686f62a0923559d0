/** The message input (`MessageInput.tsx`): an edge detector that tells the page when the
    user starts and stops typing, an inactivity timer that ends the typing state, and
    submission of the trimmed text. The timer is explicit: arming and cancelling it are
    field updates, its expiry is a method. */
module MessageInputComponent {
  import opened Text
  import opened ChatTypes

  /** The text area is disabled unless the page is connected. The ensures only exposes
      the body to callers; `DisabledInputDisablesSend` states what it means. */
  function IsDisabled(status: ConnectionStatus): (r: bool)
    ensures r <==> status != Connected
  {
    status != Connected
  }

  /** The send button is also disabled while the text is blank: `!value.trim()`. */
  function SendDisabled(status: ConnectionStatus, value: string): (r: bool)
    ensures r <==> status != Connected || IsBlank(value)
  {
    IsDisabled(status) || Trim(value) == ""
  }

  /** A disabled text area always comes with a disabled send button; while the area is
      enabled, the button is disabled exactly for blank text. */
  lemma DisabledInputDisablesSend(status: ConnectionStatus, value: string)
    ensures IsDisabled(status) ==> SendDisabled(status, value)
    ensures !IsDisabled(status) ==> (SendDisabled(status, value) <==> IsBlank(value))
  {
  }

  /** A stream of typing notifications that starts with "started" and never repeats a
      value: each notification is a real change of state. */
  predicate Alternating(s: seq<bool>) {
    && (|s| > 0 ==> s[0])
    && forall i :: 0 <= i < |s| - 1 ==> s[i] != s[i + 1]
  }

  /** Announcing the opposite of the last notification keeps the stream alternating. */
  lemma AlternatingAppend(s: seq<bool>, b: bool)
    requires Alternating(s)
    requires b == !(|s| > 0 && s[|s| - 1])
    ensures Alternating(s + [b])
    ensures (s + [b])[|s|] == b
  {
  }

  class MessageInput {
    var value: string
    var isTyping: bool
    /** Whether the inactivity timer is pending. */
    var timerArmed: bool
    /** The `isTyping` value the pending timer's callback closed over. */
    var timerSawTyping: bool
    var mounted: bool
    /** The `onTypingChange` notifications made so far, in order. */
    var typingChanges: seq<bool>
    /** The texts passed to `onSend` so far, in order. */
    var sends: seq<string>

    /** The typing state is on only for non-blank text and then always has a pending
        timer to end it; the notifications alternate and the last one is the state. */
    ghost predicate Valid()
      reads this
    {
      && (isTyping ==> !IsBlank(value))
      && (timerArmed ==> !IsBlank(value))
      && (mounted && isTyping ==> timerArmed)
      && (timerArmed && timerSawTyping ==> isTyping)
      && NotificationsMatch()
    }

    /** The notifications alternate and the last one is the current typing state. */
    ghost predicate NotificationsMatch()
      reads this
    {
      && Alternating(typingChanges)
      && isTyping == (|typingChanges| > 0 && typingChanges[|typingChanges| - 1])
    }

    constructor ()
      ensures Valid()
      ensures value == "" && !isTyping && !timerArmed && mounted
      ensures typingChanges == [] && sends == []
    {
      value := "";
      isTyping := false;
      timerArmed := false;
      timerSawTyping := false;
      mounted := true;
      typingChanges := [];
      sends := [];
    }

    /** `resetTypingTimeout`: cancels the pending timer and arms a new one, whose callback
        sees `sawTyping` as the typing state. */
    method ResetTypingTimeout(sawTyping: bool)
      modifies this`timerArmed, this`timerSawTyping
      ensures timerArmed && timerSawTyping == sawTyping
    {
      timerArmed := true;
      timerSawTyping := sawTyping;
    }

    /** `handleTypingChange`: the typing state becomes "the text is not blank", a
        notification is made exactly when that changes the state, and the timer is
        re-armed for non-blank text and cancelled for blank text. */
    method HandleTypingChange(next: string)
      requires NotificationsMatch()
      modifies this`isTyping, this`typingChanges, this`timerArmed, this`timerSawTyping
      ensures NotificationsMatch()
      ensures isTyping == !IsBlank(next)
      ensures typingChanges == old(typingChanges) + (if isTyping != old(isTyping) then [isTyping] else [])
      ensures timerArmed == !IsBlank(next)
      ensures !IsBlank(next) ==> timerSawTyping == old(isTyping)
      ensures IsBlank(next) ==> timerSawTyping == old(timerSawTyping)
    {
      var trimmed := Trim(next);
      assert trimmed == "" <==> IsBlank(next);
      var wasTyping := isTyping;
      if trimmed != "" && !wasTyping {
        AlternatingAppend(typingChanges, true);
        isTyping := true;
        typingChanges := typingChanges + [true];
      }
      if trimmed == "" && wasTyping {
        AlternatingAppend(typingChanges, false);
        isTyping := false;
        typingChanges := typingChanges + [false];
      }
      if trimmed != "" {
        ResetTypingTimeout(wasTyping);
      } else if timerArmed {
        timerArmed := false;
      }
    }

    /** The text changed. */
    method Change(next: string)
      requires NotificationsMatch()
      modifies this`value, this`isTyping, this`typingChanges, this`timerArmed, this`timerSawTyping
      ensures Valid()
      ensures value == next && isTyping == !IsBlank(next) && timerArmed == !IsBlank(next)
      ensures typingChanges == old(typingChanges) + (if isTyping != old(isTyping) then [isTyping] else [])
      ensures !IsBlank(next) ==> timerSawTyping == old(isTyping)
      ensures IsBlank(next) ==> timerSawTyping == old(timerSawTyping)
    {
      value := next;
      HandleTypingChange(next);
    }

    /** The text area gained focus: non-blank text counts as typing again. */
    method Focus()
      requires Valid() && mounted
      modifies this`isTyping, this`typingChanges, this`timerArmed, this`timerSawTyping
      ensures Valid()
      ensures IsBlank(value) ==>
        isTyping == old(isTyping) && typingChanges == old(typingChanges) && timerArmed == old(timerArmed)
      ensures !IsBlank(value) ==>
        isTyping && timerArmed && typingChanges == old(typingChanges) + (if old(isTyping) then [] else [true])
      ensures !IsBlank(value) ==> timerSawTyping == old(isTyping)
      ensures IsBlank(value) ==> timerSawTyping == old(timerSawTyping)
    {
      if Trim(value) != "" {
        HandleTypingChange(value);
      }
    }

    /** The inactivity timer fires and ends the typing state, reading the state as it is
        when the timer fires. */
    method TypingTimeoutFired()
      requires Valid()
      modifies this`isTyping, this`typingChanges, this`timerArmed
      ensures Valid()
      ensures old(timerArmed) ==>
        !isTyping && !timerArmed && typingChanges == old(typingChanges) + (if old(isTyping) then [false] else [])
      ensures !old(timerArmed) ==>
        isTyping == old(isTyping) && !timerArmed && typingChanges == old(typingChanges)
    {
      if timerArmed {
        timerArmed := false;
        if isTyping {
          isTyping := false;
          typingChanges := typingChanges + [false];
        }
      }
    }

    /** The inactivity timer fires, as the component is written: the callback tests the
        typing state its render saw, which is "not typing" when the timer was armed by
        the keystroke that started the typing state. */
    method TypingTimeoutFiredAsWritten()
      requires Valid()
      modifies this`isTyping, this`typingChanges, this`timerArmed
      ensures NotificationsMatch()
      ensures old(timerArmed) && old(timerSawTyping) ==>
        !isTyping && !timerArmed && typingChanges == old(typingChanges) + [false]
      ensures old(timerArmed) && !old(timerSawTyping) ==>
        isTyping == old(isTyping) && !timerArmed && typingChanges == old(typingChanges)
      ensures !old(timerArmed) ==>
        isTyping == old(isTyping) && !timerArmed && typingChanges == old(typingChanges)
    {
      if timerArmed {
        timerArmed := false;
        if timerSawTyping {
          isTyping := false;
          typingChanges := typingChanges + [false];
        }
      }
    }

    /** `submitMessage`: blank text is not sent; otherwise the trimmed text is sent, the
        input is cleared, the typing state ends and the timer is cancelled. */
    method Submit()
      requires Valid()
      modifies this`value, this`isTyping, this`typingChanges, this`timerArmed, this`sends
      ensures Valid()
      ensures IsBlank(old(value)) ==>
        && value == old(value) && sends == old(sends) && isTyping == old(isTyping)
        && typingChanges == old(typingChanges) && timerArmed == old(timerArmed)
      ensures !IsBlank(old(value)) ==>
        && sends == old(sends) + [Trim(old(value))] && value == ""
        && !isTyping && !timerArmed
        && typingChanges == old(typingChanges) + (if old(isTyping) then [false] else [])
    {
      var trimmed := Trim(value);
      if trimmed == "" {
        return;
      }
      sends := sends + [trimmed];
      value := "";
      if isTyping {
        isTyping := false;
        typingChanges := typingChanges + [false];
      }
      timerArmed := false;
    }

    /** Unmounting cancels the pending timer. */
    method Unmount()
      requires Valid()
      modifies this`timerArmed, this`mounted
      ensures Valid()
      ensures !timerArmed && !mounted
    {
      timerArmed := false;
      mounted := false;
    }
  }

  /** One keystroke, the inactivity timer, another keystroke, with the callback reading the
      current typing state: "stopped" is announced on expiry and "started" again on the
      next keystroke. */
  method IdleThenTypeAgain() returns (changes: seq<bool>)
    ensures changes == [true, false, true]
  {
    var input := new MessageInput();
    assert !IsBlank("a") by { assert !IsWhiteSpace("a"[0]); }
    input.Change("a");
    input.TypingTimeoutFired();
    assert !IsBlank("ab") by { assert !IsWhiteSpace("ab"[0]); }
    input.Change("ab");
    changes := input.typingChanges;
  }

  /** The same events as written: the timer armed by the first keystroke saw "not
      typing", so it announces nothing; the typing state stays on, and the second
      keystroke after the pause announces nothing either. */
  method IdleThenTypeAgainAsWritten() returns (changes: seq<bool>, typing: bool)
    ensures changes == [true] && typing
  {
    var input := new MessageInput();
    assert !IsBlank("a") by { assert !IsWhiteSpace("a"[0]); }
    input.Change("a");
    input.TypingTimeoutFiredAsWritten();
    assert !IsBlank("ab") by { assert !IsWhiteSpace("ab"[0]); }
    input.Change("ab");
    changes := input.typingChanges;
    typing := input.isTyping;
  }
}
