/*
 * The monitor of graphit.go's main: the argument check, the `draw` closure
 * run on every timer tick, and the event loop that reacts to keys and
 * terminal resizes. The terminal layer, the timer, the process-statistics
 * reader and the cmdline file are inputs: a tick carries the outcome of the
 * statistics read and the terminal width at that moment.
 */
module Monitor {
  import opened Convert
  import opened CommandLine
  import opened Window

  /** The outcome of pidusage.GetStat: an error, or the resident memory in bytes. */
  datatype StatReading = StatFailed | StatOk(memory: real)

  /** The graph's title. getTitle formats the amount of a Uses title with strconv.FormatFloat, which is not modelled. */
  datatype Title = Heading | Uses(memory: real) | Terminated

  /** A rectangle as termui's SetRect takes it: two corners. */
  datatype Rect = Rect(x0: int, y0: int, x1: int, y1: int)

  /** What the loop receives, in arrival order. */
  datatype Event =
    | Tick(reading: StatReading, termWidth: int)
    | Key(id: string)
    | Resize(width: int, height: int)
    | Mouse

  /** The state the loop updates: the sparkline's data, its title, the grid's rectangle, and whether the loop has returned. */
  datatype Screen = Screen(data: seq<real>, title: Title, grid: Rect, exited: bool)

  /** How the program ends up: refused at the argument check, or monitoring. */
  datatype Outcome =
    | Refused(code: int, message: string)
    | Monitoring(pid: int, command: string, screen: Screen)

  /** The result of the argument check: a refusal (always exit code 1) with its message, or the pid to watch. */
  datatype Start = Reject(message: string) | Watch(pid: int)

  /** getMemoryProcessOfProcess: the memory in bytes, or -1 when the read fails. */
  function MemoryOf(reading: StatReading): (m: real)
    ensures reading.StatFailed? ==> m == -1.0
    ensures reading.StatOk? ==> m == reading.memory
  {
    match reading
    case StatFailed => -1.0
    case StatOk(memory) => memory
  }

  /**
   * The title's text as far as the source fixes it: all of it for the
   * heading and the terminated title; for a Uses title, the part before the
   * formatted amount (which is followed by " bytes").
   */
  function Caption(pid: int, t: Title): (s: string)
    ensures t.Heading? ==> s == "Memory usage of PID " + Itoa(pid)
    ensures !t.Heading? ==> |s| > 4 + |Itoa(pid)| && s[..4 + |Itoa(pid)|] == "PID " + Itoa(pid)
    ensures t.Uses? ==> s[4 + |Itoa(pid)|..] == " uses "
    ensures t.Terminated? ==> s[4 + |Itoa(pid)|..] == " terminated"
  {
    match t
    case Heading => "Memory usage of PID " + Itoa(pid)
    case Uses(_) => "PID " + Itoa(pid) + " uses "
    case Terminated => "PID " + Itoa(pid) + " terminated"
  }

  /** The process ID can be read back from every title: it ends the heading and follows "PID " in the others. */
  lemma CaptionNamesPid(pid: int, t: Title)
    requires InInt64(pid)
    ensures t.Heading? ==> Atoi(Caption(pid, t)[20..]) == Some(pid)
    ensures !t.Heading? ==> Atoi(Caption(pid, t)[4..4 + |Itoa(pid)|]) == Some(pid)
  {
    var s := Caption(pid, t);
    AtoiItoa(pid);
    if t.Heading? {
      assert s[20..] == Itoa(pid);
    } else {
      assert s[4..4 + |Itoa(pid)|] == s[..4 + |Itoa(pid)|][4..];
    }
  }

  predicate IsExitKey(id: string) {
    id == "q" || id == "<C-c>" || id == "<Escape>"
  }

  predicate IsExitEvent(e: Event) {
    e.Key? && IsExitKey(e.id)
  }

  /** The argument check before the loop: os.Args, program name first. */
  function CheckArgs(args: seq<string>): (r: Start)
    ensures |args| < 2 ==> r == Reject("No process ID provided")
    ensures |args| >= 2 && Atoi(args[1]).None? ==> r == Reject("Invalid process ID provided")
    ensures r.Watch? <==> |args| >= 2 && Atoi(args[1]).Some?
    ensures r.Watch? ==> Atoi(args[1]) == Some(r.pid)
  {
    if |args| < 2 then Reject("No process ID provided")
    else match Atoi(args[1])
      case None => Reject("Invalid process ID provided")
      case Some(pid) => Watch(pid)
  }

  /** Every 64-bit process ID written in decimal passes the argument check. */
  lemma CheckArgsAcceptsEveryPid(program: string, pid: int)
    requires InInt64(pid)
    ensures CheckArgs([program, Itoa(pid)]) == Watch(pid)
  {
    AtoiItoa(pid);
  }

  /** The screen before the first event, for a terminal `width` by `height`. */
  function Initial(width: int, height: int): (s: Screen)
    ensures s.data == [] && s.title == Heading && !s.exited
    ensures s.grid == Rect(0, 0, width, height)
  {
    Screen([], Heading, Rect(0, 0, width, height), false)
  }

  /**
   * One event handled by the loop body (a tick runs `draw`). Only ticks
   * change the data and the title, and push at most one sample; only
   * resizes change the grid; only exit keys end the loop, and nothing
   * restarts it.
   */
  function Step(s: Screen, e: Event): (r: Screen)
    ensures !e.Tick? ==> r.data == s.data && r.title == s.title
    ensures |r.data| <= |s.data| + 1
    ensures !e.Resize? ==> r.grid == s.grid
    ensures e.Resize? ==> r.grid == Rect(0, 0, e.width, e.height)
    ensures r.exited == (s.exited || IsExitEvent(e))
  {
    match e
    case Tick(reading, termWidth) =>
      var memoryUsage := MemoryOf(reading);
      if memoryUsage > 0.0 then
        s.(title := Uses(memoryUsage), data := ShuffleToTheLeft(s.data, memoryUsage, termWidth))
      else
        s.(title := Terminated)
    case Key(id) => if IsExitKey(id) then s.(exited := true) else s
    case Resize(width, height) => s.(grid := Rect(0, 0, width, height))
    case Mouse => s
  }

  /** The loop over `events`; once an exit key has returned from it, nothing more is handled. */
  function Run(s: Screen, events: seq<Event>): (r: Screen)
    ensures s.exited ==> r == s
    ensures |r.data| <= |s.data| + |events|
    decreases |events|
  {
    if events == [] || s.exited then s else Run(Step(s, events[0]), events[1..])
  }

  /**
   * A tick: a positive reading is pushed and named in the title; a failed
   * read (-1) or a reading of zero only changes the title to terminated.
   */
  lemma TickClassifies(s: Screen, reading: StatReading, w: int)
    ensures reading.StatOk? && reading.memory > 0.0 ==>
      Step(s, Tick(reading, w)) == s.(title := Uses(reading.memory), data := ShuffleToTheLeft(s.data, reading.memory, w))
    ensures !(reading.StatOk? && reading.memory > 0.0) ==>
      Step(s, Tick(reading, w)) == s.(title := Terminated)
  {
  }

  /**
   * A failed read is not remembered: the next positive reading is pushed as
   * if nothing had happened.
   */
  lemma TerminationNotSticky(s: Screen, m: real, w: int)
    requires m > 0.0
    ensures Step(Step(s, Tick(StatFailed, w)), Tick(StatOk(m), w)).data == ShuffleToTheLeft(s.data, m, w)
    ensures Step(Step(s, Tick(StatFailed, w)), Tick(StatOk(m), w)).title == Uses(m)
  {
  }

  /**
   * Two samples, a failed read, a reading of zero, a resize and `q`: the
   * two samples stay on the graph, the title reads terminated, the grid
   * takes the new size and the loop returns.
   */
  lemma SampleThenTerminateThenQuit()
    ensures Run(Initial(80, 24), [Tick(StatOk(100.0), 80), Tick(StatOk(120.0), 80), Tick(StatFailed, 80),
                                  Tick(StatOk(0.0), 80), Resize(100, 40), Key("q")])
         == Screen([100.0, 120.0], Terminated, Rect(0, 0, 100, 40), true)
  {
  }

  /** The loop returns exactly when one of the three exit keys arrives. */
  lemma {:induction false} RunExitsOnExitKey(s: Screen, events: seq<Event>)
    requires !s.exited
    ensures Run(s, events).exited <==> exists k :: 0 <= k < |events| && IsExitEvent(events[k])
    decreases |events|
  {
    if events != [] {
      var next := Step(s, events[0]);
      if !next.exited {
        RunExitsOnExitKey(next, events[1..]);
        if exists k :: 0 <= k < |events[1..]| && IsExitEvent(events[1..][k]) {
          var k :| 0 <= k < |events[1..]| && IsExitEvent(events[1..][k]);
          assert IsExitEvent(events[k + 1]);
        }
        if exists k :: 0 <= k < |events| && IsExitEvent(events[k]) {
          var k :| 0 <= k < |events| && IsExitEvent(events[k]);
          assert k != 0;
          assert IsExitEvent(events[1..][k - 1]);
        }
      } else {
        assert IsExitEvent(events[0]);
      }
    }
  }

  /** The events after an exit key are never handled. */
  lemma {:induction false} RunIgnoresAfterExit(s: Screen, events: seq<Event>, k: nat)
    requires k < |events| && IsExitEvent(events[k])
    ensures Run(s, events) == Run(s, events[..k + 1])
    ensures Run(s, events).exited
    decreases k
  {
    if !s.exited {
      var next := Step(s, events[0]);
      if k == 0 {
        assert next.exited;
      } else {
        RunIgnoresAfterExit(next, events[1..], k - 1);
        assert events[1..][..k] == events[..k + 1][1..];
      }
    }
  }

  /** The sample an event pushes: the reading of a tick that reads a positive amount. */
  function TickSample(e: Event): (xs: seq<real>)
    ensures |xs| <= 1
    ensures |xs| == 1 <==> e.Tick? && e.reading.StatOk? && e.reading.memory > 0.0
    ensures |xs| == 1 ==> xs[0] == e.reading.memory
  {
    if e.Tick? && MemoryOf(e.reading) > 0.0 then [MemoryOf(e.reading)] else []
  }

  /** The positive samples the ticks among `events` push, in order. */
  function Pushed(events: seq<Event>): (xs: seq<real>)
    ensures forall i :: 0 <= i < |xs| ==> xs[i] > 0.0
    decreases |events|
  {
    if events == [] then [] else TickSample(events[0]) + Pushed(events[1..])
  }

  lemma StepShowsLatest(s: Screen, e: Event, width: int)
    requires |s.data| <= Cap(width)
    requires e.Tick? ==> e.termWidth == width
    ensures Step(s, e).data == LastN(s.data + TickSample(e), Cap(width))
  {
    if TickSample(e) != [] {
      ShuffleIsLastN(s.data, TickSample(e)[0], width);
    }
  }

  lemma PushedFirst(data: seq<real>, events: seq<Event>)
    requires events != []
    ensures data + TickSample(events[0]) + Pushed(events[1..]) == data + Pushed(events)
  {
  }

  predicate TicksAtWidth(events: seq<Event>, width: int) {
    forall i :: 0 <= i < |events| && events[i].Tick? ==> events[i].termWidth == width
  }

  /**
   * While the terminal keeps its width and no exit key arrives, the graph
   * shows exactly the latest Cap(width) positive samples, oldest first.
   */
  lemma {:induction false} RunShowsLatestSamples(s: Screen, events: seq<Event>, width: int)
    requires !s.exited && |s.data| <= Cap(width)
    requires TicksAtWidth(events, width)
    requires forall i :: 0 <= i < |events| ==> !IsExitEvent(events[i])
    ensures Run(s, events).data == LastN(s.data + Pushed(events), Cap(width))
    decreases |events|
  {
    if events != [] {
      var c := Cap(width);
      var e := events[0];
      var next := Step(s, e);
      assert next.data == LastN(s.data + TickSample(e), c) by { StepShowsLatest(s, e, width); }
      RunShowsLatestSamples(next, events[1..], width);
      assert LastN(next.data + Pushed(events[1..]), c) == LastN(s.data + Pushed(events), c) by {
        LastNAppend(s.data + TickSample(e), Pushed(events[1..]), c);
        PushedFirst(s.data, events);
      }
    }
  }

  /** At a fixed terminal width the graph never holds more than Cap(width) samples. */
  lemma {:induction false} RunWindowBound(s: Screen, events: seq<Event>, width: int)
    requires |s.data| <= Cap(width)
    requires TicksAtWidth(events, width)
    ensures |Run(s, events).data| <= Cap(width)
    decreases |events|
  {
    if events != [] && !s.exited {
      var e := events[0];
      if e.Tick? && MemoryOf(e.reading) > 0.0 {
        ShuffleEviction(s.data, MemoryOf(e.reading), width);
      }
      RunWindowBound(Step(s, e), events[1..], width);
    }
  }

  /** The objects main builds and updates: the sparkline, its group and the grid. */
  class Graph {
    const pid: int
    const command: string
    var data: seq<real>
    var title: Title
    var grid: Rect
    var exited: bool

    function Current(): (s: Screen)
      reads this
    {
      Screen(data, title, grid, exited)
    }

    constructor (pid: int, cmdline: FileRead, width: int, height: int)
      ensures this.pid == pid && command == CommandName(cmdline)
      ensures Current() == Initial(width, height)
    {
      this.pid := pid;
      command := CommandName(cmdline);
      data := [];
      title := Heading;
      grid := Rect(0, 0, width, height);
      exited := false;
    }

    /** The `draw` closure, with the statistics read and the terminal width as inputs. */
    method Draw(reading: StatReading, termWidth: int)
      modifies this
      ensures Current() == Step(old(Current()), Tick(reading, termWidth))
    {
      var memoryUsage := MemoryOf(reading);
      if memoryUsage > 0.0 {
        title := Uses(memoryUsage);
        data := ShuffleToTheLeft(data, memoryUsage, termWidth);
      } else {
        title := Terminated;
      }
    }

    method OnKey(id: string)
      modifies this
      ensures Current() == Step(old(Current()), Key(id))
    {
      if IsExitKey(id) {
        exited := true;
      }
    }

    method OnResize(width: int, height: int)
      modifies this
      ensures Current() == Step(old(Current()), Resize(width, height))
    {
      grid := Rect(0, 0, width, height);
    }

    /** The `for { select … }` loop over the events in arrival order, until an exit key. */
    method Loop(events: seq<Event>)
      modifies this
      ensures Current() == Run(old(Current()), events)
    {
      ghost var start := Current();
      var i := 0;
      while i < |events| && !exited
        invariant 0 <= i <= |events|
        invariant Run(start, events) == Run(Current(), events[i..])
        decreases |events| - i
      {
        assert events[i..][1..] == events[i + 1..];
        match events[i] {
          case Tick(reading, termWidth) => Draw(reading, termWidth);
          case Key(id) => OnKey(id);
          case Resize(width, height) => OnResize(width, height);
          case Mouse =>
        }
        i := i + 1;
      }
    }
  }

  /**
   * main: check the arguments, build the graph for the terminal's size and
   * the command name, then run the loop over the events.
   */
  method Launch(args: seq<string>, cmdline: FileRead, width: int, height: int, events: seq<Event>)
    returns (o: Outcome)
    ensures CheckArgs(args).Reject? ==> o == Refused(1, CheckArgs(args).message)
    ensures CheckArgs(args).Watch? ==>
      o == Monitoring(CheckArgs(args).pid, CommandName(cmdline), Run(Initial(width, height), events))
  {
    match CheckArgs(args)
    case Reject(message) =>
      o := Refused(1, message);
    case Watch(pid) =>
      var g := new Graph(pid, cmdline, width, height);
      g.Loop(events);
      o := Monitoring(g.pid, g.command, g.Current());
  }
}
