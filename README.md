# graphit, modelled in Dafny

graphit is a terminal memory monitor for one process. It is given a process
ID on the command line. Once a second it reads the process's resident memory
and pushes the amount onto a sparkline whose sample window slides with the
terminal's width. Under the graph it shows the process's command line. It
returns when the user presses `q`, `Ctrl-C` or `Escape`.

This project models the logic of `graphit.go` in four modules:

- `Convert` (`convert.dfy`) models `strconv.Itoa` and `strconv.Atoi` on Go's 64-bit `int`.
  `Atoi` is an optional sign followed by decimal digits, with range checking.
  `AtoiItoa` proves that `Atoi` reads back every value `Itoa` writes.
- `CommandLine` (`cmdline.dfy`) models `getCommandName`, including Go's `strings.Split` and `strings.Join` with a one-byte separator.
  It proves that splitting on NUL and joining with a space is the same as replacing each NUL with a space.
- `Window` (`window.dfy`) models `suffleToTheLeft`, the sliding sample window.
  The terminal width that the source reads inside the function is a parameter here.
  The rule is modelled exactly as written. The appended window is compared against `width - 1` with `<`, and a window of one is always kept. So the window settles at `Cap(width) = max(1, width - 2)` samples.
  A push drops at most the single oldest sample. A window that is already longer (the terminal has narrowed) is never cut back.
- `Monitor` (`monitor.dfy`) models `main`.
  It covers the argument check, the `draw` closure with `getMemoryProcessOfProcess`, and the `for { select … }` loop.
  The loop's state (sparkline data, title, grid rectangle, whether the loop has returned) is a class, `Graph`, with one method per kind of event the code handles and a `Loop` method over the events in arrival order.
  Each method is proved against the pure `Step`/`Run` functions. The lemmas about the loop are stated over those functions.

Events are a tagged type: `Tick(reading, termWidth)`, `Key(id)`, `Resize(width, height)` and `Mouse`.
A tick carries the outcome of the statistics read (`StatFailed` or `StatOk(memory)`) and the terminal width at that moment.
The cmdline file read is `ReadFailed` or `ReadBytes(content)`. Each byte of the file is one `char`.
Memory amounts are `real`. The source only stores them and compares them with 0.

Notes on what the code does:

- The window settles at `width - 2` samples, although the threshold variable in `suffleToTheLeft` is `width - 1`.
- A resize never shortens the window. It only resets the grid's rectangle.
- A failed read is not remembered. Each tick is classified on its own, and a later positive reading is pushed again (`TerminationNotSticky`).
- A reading of exactly 0 counts as terminated, like a failed read.

## Model

| member | source | states |
|---|---|---|
| Convert.Atoi | graphit.go:32 | Gives a value exactly when the text after an optional `+` or `-` is one or more decimal digits and the signed value fits in 64 bits. The value is that signed value. |
| Convert.AtoiRefusesBareSign | graphit.go:32-36 | `"+"` and `"-"` alone are refused. |
| Convert.AtoiRefusesStrayCharacters | graphit.go:32-36 | `"1a"` and `" 1"` are refused. |
| Convert.AtoiReadsSignsAndZeros | graphit.go:32 | `"007"` reads as 7, `"-0"` as 0 and `"+5"` as 5. |
| Convert.AtoiRefusesOutOfRange | graphit.go:32-36 | The decimal text of any number outside the 64-bit range is refused. |
| Convert.AtoiItoa | graphit.go:32-36 | For every 64-bit int `n`, `Atoi(Itoa(n)) == Some(n)`. |
| Convert.ItoaInjective | graphit.go:46 | Two different 64-bit ints never get the same decimal text. |
| Convert.Itoa | graphit.go:46 | The text starts with `-` exactly for negative numbers, and the rest is decimal digits. Zero is `"0"`, and no other number has a leading zero. |
| Convert.DigitsValueOfNatDigits | graphit.go:46 | Reading back the decimal digits of a natural number gives that number. |
| CommandLine.Split | graphit.go:114 | `k` separators give `k + 1` pieces, and no piece contains the separator. |
| CommandLine.Join | graphit.go:114 | No pieces give the empty string. Otherwise the text starts with the first piece, and a separator follows it when there are more pieces. `JoinSplit` states the whole result for split text. |
| CommandLine.Replace | graphit.go:114 | Same length as the input. Each `from` character becomes `to`, and every other character is unchanged. |
| CommandLine.JoinSplit | graphit.go:114 | Joining the NUL-split pieces with `glue` equals replacing every NUL with `glue`. |
| CommandLine.SplitRoundTrip | graphit.go:114 | Joining the pieces with the separator they were split on restores the text. |
| CommandLine.CommandName | graphit.go:108-115 | A failed read gives exactly `"unknown"`. Otherwise the result has the file's length, with each NUL replaced by a space and every other byte unchanged. |
| Window.Cap | graphit.go:124-132 | The settled window length is at least 1 and at least `width - 2`, and is one of the two. |
| Window.ShuffleToTheLeft | graphit.go:121-133 | Pushing into an empty window gives `[newValue]`. The new value is always last. The result is either `data + [newValue]` or `data[1..] + [newValue]`. |
| Window.ShuffleEviction | graphit.go:124-132 | The oldest sample is dropped exactly when the window already holds `Cap(width)` or more. A window within the cap stays within it, and a longer window keeps its length. |
| Window.LastN | graphit.go:124-132 | The suffix of `s` of length `n`, or all of `s` when it is shorter. |
| Window.ShuffleIsLastN | graphit.go:124-132 | Within the cap, a push leaves the last `Cap(width)` samples of `data + [v]`. |
| Window.PushAllKeepsLatest | graphit.go:121-133 | First in, first out. Pushing any samples at a fixed width into a window within the cap leaves exactly the most recent `Cap(width)` samples, in push order. |
| Window.WindowBound | graphit.go:124-132 | A window grown from empty at a fixed width never exceeds `Cap(width)`. Once that many samples have been pushed, it holds exactly that many. |
| Monitor.MemoryOf | graphit.go:135-142 | A failed statistics read gives -1. A successful one gives the memory read. |
| Monitor.Caption | graphit.go:117-119 | The heading is `"Memory usage of PID <pid>"` (line 46). The other titles start with `"PID <pid>"` and continue with `" uses "` (then the amount) or `" terminated"` (line 75). |
| Monitor.CaptionNamesPid | graphit.go:117-119 | The process ID parses back from every title: from the end of the heading, and from the digits that follow `"PID "` in a uses or terminated title. |
| Monitor.CheckArgs | graphit.go:28-36 | With no argument: refused with "No process ID provided". With an argument `Atoi` rejects: refused with "Invalid process ID provided". Otherwise it monitors exactly the parsed ID. Every refusal exits with code 1 (`Launch`). |
| Monitor.CheckArgsAcceptsEveryPid | graphit.go:32-36 | Every 64-bit process ID written in decimal passes the argument check as itself. |
| Monitor.Initial | graphit.go:38-61 | The loop starts with no data, the heading title, the grid at `(0, 0, width, height)`, and the loop not returned. |
| Monitor.TickClassifies | graphit.go:69-79 | A tick with a positive reading pushes it and titles it "uses". A failed read (-1) or a reading of 0 changes only the title, to terminated. |
| Monitor.Step | graphit.go:69-104 | One event. Only ticks change the data and title, and they push at most one sample. Only a resize changes the grid, setting it to `(0, 0, w, h)`. Only the three exit keys end the loop, and nothing restarts it. `TickClassifies` states the tick in full. |
| Monitor.Run | graphit.go:83-105 | The loop over the events. Once it has returned, nothing changes, and each event adds at most one sample. `RunExitsOnExitKey`, `RunIgnoresAfterExit` and `RunShowsLatestSamples` state the rest. |
| Monitor.TerminationNotSticky | graphit.go:69-76 | After a failed read, the next positive reading is pushed and titled as usual. |
| Monitor.SampleThenTerminateThenQuit | graphit.go:83-105 | Samples 100 and 120, a failed read, a 0 reading, a resize and `q` leave `[100, 120]`, the terminated title, the new grid, and the loop returned. |
| Monitor.RunExitsOnExitKey | graphit.go:86-94 | The loop returns if and only if one of `"q"`, `"<C-c>"` or `"<Escape>"` arrives. |
| Monitor.RunIgnoresAfterExit | graphit.go:88-93 | Events after an exit key are never handled. |
| Monitor.TickSample | graphit.go:70-73 | A tick pushes one sample exactly when the read succeeds with a positive amount, and that sample is the amount read. |
| Monitor.Pushed | graphit.go:71-73 | The samples the loop pushes are all positive. |
| Monitor.StepShowsLatest | graphit.go:69-73 | At a fixed width, one event leaves the last `Cap(width)` of the window plus the sample it pushes. |
| Monitor.RunShowsLatestSamples | graphit.go:83-105 | At a fixed width and until an exit key, the graph shows exactly the latest `Cap(width)` positive samples, oldest first. |
| Monitor.RunWindowBound | graphit.go:83-105 | At a fixed width, the loop never lets the window exceed `Cap(width)`. |
| Monitor.Graph.constructor | graphit.go:38-61 | The graph starts empty, titled with the heading, with the grid covering the terminal and the command name from the cmdline read. |
| Monitor.Graph.Draw | graphit.go:69-79 | The `draw` closure leaves the state that `Step` gives for the tick. |
| Monitor.Graph.OnKey | graphit.go:87-94 | A key leaves the state that `Step` gives. Only an exit key sets the exited flag. |
| Monitor.Graph.OnResize | graphit.go:95-99 | A resize sets the grid to `(0, 0, width, height)` and nothing else. |
| Monitor.Graph.Loop | graphit.go:83-105 | Handling the events in order until an exit key leaves the state `Run` gives. |
| Monitor.Launch | graphit.go:22-106 | A rejected argument gives exit code 1 with its message. Otherwise the outcome is the parsed ID, the command name, and the screen the loop leaves after the events. |

## Left out

- Monitor.Caption: gives the "uses" title only up to the amount. `strconv.FormatFloat(memoryUsage, 'f', 0, 64)` and the trailing `" bytes"` are float-to-text formatting and are not modelled.
- The terminal layer (`ui.Init`, `ui.Close`, `ui.Clear`, `ui.Render`, `ui.PollEvents`, `ui.TerminalDimensions`) is I/O. Its size readings and events are inputs. The exit through `log.Fatalf` when `ui.Init` fails is not modelled.
- The one-second ticker and the `select` between the ticker and the terminal's events are timing and concurrency. The loop takes one already-ordered sequence of events.
- `pidusage.GetStat` and `os.ReadFile` of `/proc/<pid>/cmdline` are OS calls. Their outcomes are inputs (error or value, error or bytes).
- Widget styling, the paragraph's `SetRect` (its only effect is on rendering) and the grid's 2/3 and 1/3 row ratios are rendering details.
- Memory amounts are reals, so float64 rounding, NaN and infinities are not modelled. The source only stores the amounts and compares them with 0.
- Go slices are modelled as immutable sequences. Aliasing from `append` and `data[1:]` is not observable, because the sparkline's data is reassigned after every push.
- A Go string is a byte string. The cmdline contents are modelled as one `char` per byte, with no encoding.
- The exit status 0 after the loop returns, and the deferred `ui.Clear`/`ui.Close`, are represented only by the `exited` flag.
- MemoryHog.java is a load generator (an allocation loop) with no logic to model.
