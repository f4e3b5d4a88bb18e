/**
 * The delay and sound timers: a counter that the timer thread decrements
 * sixty times a second, firing its onZero callback on every tick at zero.
 * The sound timer also fires onValue whenever a value is set.
 */
module Timers {
  import opened Wrappers
  import opened JavaText
  import opened Exceptions

  /** The callbacks the CPU installs: a synthesizer note on or off, or an empty action. */
  datatype Interrupt = NoteOn | NoteOff | DoNothing

  /** One tick of the timer thread: value-- in 32-bit arithmetic unless the value is zero. */
  function Tick(v: Int32): (r: Int32)
    ensures v == 0 ==> r == 0
    ensures 0 < v ==> r == v - 1 && 0 <= r
    ensures IntMin < v < 0 ==> r == v - 1
    ensures v == IntMin ==> r == IntMax
  {
    if v == 0 then 0 else if v == IntMin then IntMax else v - 1
  }

  /** The value after n ticks. */
  function Ticks(v: Int32, n: nat): Int32
    decreases n
  {
    if n == 0 then v else Ticks(Tick(v), n - 1)
  }

  /** A timer set to a non-negative value counts down one per tick and then stays at zero. */
  lemma {:induction false} CountsDown(v: Int32, n: nat)
    requires 0 <= v
    ensures Ticks(v, n) == if n <= v then v - n else 0
  {
    if n > 0 {
      CountsDown(Tick(v), n - 1);
    }
  }

  class Timer {
    var value: Int32
    var onZero: Option<Interrupt>

    constructor ()
      ensures value == 0 && onZero == None
    {
      value := 0;
      onZero := None;
    }

    constructor WithValue(initial: Int32)
      ensures value == initial && onZero == None
    {
      value := initial;
      onZero := None;
    }

    method SetValue(v: Int32)
      modifies this
      ensures value == v && onZero == old(onZero)
    {
      value := v;
    }

    /** decrementValue: one tick; at zero the onZero callback fires, if there is one. */
    method DecrementValue() returns (fired: Option<Interrupt>)
      modifies this
      ensures value == Tick(old(value)) && onZero == old(onZero)
      ensures fired == if old(value) == 0 then onZero else None
    {
      fired := None;
      if value != 0 {
        value := if value == IntMin then IntMax else value - 1;
      } else if onZero.Some? {
        fired := onZero;
      }
    }

    function GetValue(): Int32
      reads this
    {
      value
    }

    method SetOnZero(interrupt: Interrupt)
      modifies this
      ensures onZero == Some(interrupt) && value == old(value)
    {
      onZero := Some(interrupt);
    }

    method Reset()
      modifies this
      ensures value == 0 && onZero == old(onZero)
    {
      value := 0;
    }
  }

  /** The sound timer: a timer whose setValue also fires onValue (the synthesizer's note on). */
  class SoundTimer {
    const timer: Timer
    var onValue: Option<Interrupt>

    constructor ()
      ensures fresh(timer) && timer.value == 0 && timer.onZero == None && onValue == None
    {
      timer := new Timer();
      onValue := None;
    }

    constructor WithValue(initial: Int32)
      ensures fresh(timer) && timer.value == initial && timer.onZero == None && onValue == None
    {
      timer := new Timer.WithValue(initial);
      onValue := None;
    }

    /**
     * setValue: the value is stored first, then onValue fires; with no
     * onValue installed that call is a NullPointerException, after the store.
     */
    method SetValue(v: Int32) returns (r: Result<Interrupt, Exception>)
      modifies timer
      ensures timer.value == v && timer.onZero == old(timer.onZero)
      ensures r == if onValue.Some? then Success(onValue.value) else Failure(NullPointer)
    {
      timer.SetValue(v);
      if onValue.None? {
        return Failure(NullPointer);
      }
      r := Success(onValue.value);
    }

    method SetOnValue(interrupt: Interrupt)
      modifies this
      ensures onValue == Some(interrupt)
    {
      onValue := Some(interrupt);
    }
  }
}
