// The data that the dump threads share, with the assignments that each stretch of
// their code makes to it.  Every method is one step of the machine in DumpMachine,
// so what is proved about the machine's runs holds for the object.
module DumpSession {
  import opened Options
  import opened Sequences
  import opened DumpMachine
  import opened DumpTheorems

  class Session {
    const config: Config

    // shared between the threads
    var data: Buffer
    var dataSize: nat
    var dataWritten: nat
    var readError: bool
    var writeError: bool
    var transferCancelled: bool
    var file: Option<Path>
    var disk: map<Path, seq<byte>>

    // the mutex and who has been woken from a condition variable
    var mutex: Owner
    var readerWoken: bool
    var writerWoken: bool

    // the threads
    var readerAt: ReaderAt
    var todo: seq<Op>
    var work: Work
    var writerAt: WriterAt
    var supervisor: SupervisorAt

    // what has happened
    ghost var Done: seq<Op>
    ghost var Reference: Ref
    ghost var Emitted: seq<seq<byte>>

    ghost function ReaderView(): ReaderState
      reads this`readerAt, this`todo, this`Done, this`work, this`Reference
    {
      ReaderState(readerAt, todo, Done, work, Reference)
    }

    ghost function WriterView(): WriterState
      reads this`writerAt, this`dataWritten, this`Emitted
    {
      WriterState(writerAt, dataWritten, Emitted)
    }

    ghost function SharedView(): Shared
      reads this`mutex, this`data, this`dataSize, this`readError, this`writeError, this`transferCancelled
      reads this`readerWoken, this`writerWoken
    {
      Shared(mutex, data, dataSize, readError, writeError, transferCancelled, readerWoken, writerWoken)
    }

    ghost function View(): State
      reads this
    {
      State(ReaderView(), WriterView(), SharedView(), Output(file, disk), supervisor)
    }

    constructor (config: Config)
      ensures this.config == config && View() == Init(config)
    {
      this.config := config;
      data, dataSize, dataWritten := First, 0, 0;
      readError, writeError, transferCancelled := false, false, false;
      file, disk := config.file, config.disk;
      mutex, readerWoken, writerWoken := Nobody, false, false;
      readerAt, todo, work := Idle, config.program, Work(Memory([], []), 0, config.fullSeed);
      writerAt, supervisor := Top, Polling;
      Done, Reference, Emitted := [], RefInit(config), [];
    }

    // ------------------------------------------------------------ the reader

    /** The statement at the front has been run; the reader is at `at`. */
    method Pass(at: ReaderAt)
      requires todo != []
      modifies this`readerAt, this`todo, this`work, this`Done, this`Reference
      ensures ReaderView() ==
        if at.Idle? then Past(config, old(ReaderView())) else Past(config, old(ReaderView())).(at := at)
    {
      var op := todo[0];
      work := WorkStep(work, op);
      Done, Reference := Done + [op], RefStep(config, Reference, op);
      readerAt, todo := at, todo[1..];
    }

    method PollCancel()
      requires todo != [] && todo[0].Poll?
      modifies this`readerAt, this`todo, this`work, this`Done, this`Reference
      ensures View() == ReaderStarts(config, old(View()))
    {
      hide Past, WorkStep, RefStep;
      if transferCancelled {
        readerAt := Leaving;
      } else {
        Pass(Idle);
      }
    }

    method StopOnceWritten()
      requires todo != [] && todo[0].StopIfWritten?
      modifies this`readerAt, this`todo, this`work, this`Done, this`Reference
      ensures View() == ReaderStarts(config, old(View()))
    {
      Pass(Idle);
      if dataWritten >= config.total {
        todo := config.epilogue;
      }
    }

    method CloseFile()
      requires todo != [] && todo[0].Close?
      modifies this
      ensures View() == ReaderStarts(config, old(View()))
    {
      hide Past, WorkStep, RefStep;
      Pass(Idle);
      file := None;
    }

    method OpenFile(path: Path)
      requires todo != [] && todo[0] == Open(path)
      modifies this
      ensures View() == ReaderStarts(config, old(View()))
    {
      hide Past, WorkStep, RefStep;
      Pass(Idle);
      file, disk := Some(path), disk[path := []];
    }

    method StartStatement()
      requires todo != []
      modifies this
      ensures View() == ReaderStarts(config, old(View()))
    {
      hide Past, WorkStep, RefStep;
      var op := todo[0];
      if op.Poll? {
        PollCancel();
      } else if op.Check? && (readError || writeError || transferCancelled) {
        readerAt := ReaderDone;
      } else if op.Publish? || op.Drain? {
        readerAt, mutex := Locked, Reader;
      } else if op.FinalDrain? {
        readerAt := if readError || writeError || transferCancelled then ReaderDone else Clear;
      } else if op.StopIfWritten? {
        StopOnceWritten();
      } else if op.Close? {
        CloseFile();
      } else if op.Open? {
        OpenFile(op.path);
      } else {
        Pass(Idle);
      }
    }

    /** The block goes into the slot and the mutex is released; the wake may be a step of its own. */
    method HandOver()
      requires todo != [] && todo[0].Publish? && !writeError
      modifies this`data, this`dataSize, this`mutex, this`writerWoken
      modifies this`readerAt, this`todo, this`work, this`Done, this`Reference
      ensures View() == ReaderHolds(config, old(View()))
    {
      hide Past, WorkStep, RefStep, WakeWriter, ReaderHolds;
      HandedOverState(config, View());
      FillSlot(todo[0].buf, todo[0].size);
      Pass(if config.wake.Fused? then Idle else Waking);
    }

    method FillSlot(buf: Buffer, size: nat)
      modifies this`data, this`dataSize, this`mutex, this`writerWoken
      ensures var handed := old(SharedView()).(lock := Nobody, data := buf, dataSize := size);
        SharedView() == if config.wake.Fused? then WakeWriter(handed, writerAt) else handed
    {
      data, dataSize, mutex := buf, size, Nobody;
      if config.wake.Fused? {
        writerWoken := writerWoken || writerAt.WWaiting?;
      }
    }

    /** The reader with the mutex, past the wait. */
    method UseSlot()
      requires todo != []
      modifies this
      ensures View() == ReaderHolds(config, old(View()))
    {
      hide Past, WorkStep, RefStep;
      var op := todo[0];
      if op.Drain? {
        readerAt, mutex := Drained, Nobody;
      } else if writeError {
        readerAt, mutex := ReaderDone, Nobody;
      } else if op.Publish? {
        HandOver();
      } else {
        Pass(Idle);
        mutex := Nobody;
      }
    }

    method ReadThread()
      requires ReaderEnabled(View().reader, mutex)
      modifies this
      ensures View() == ReaderNext(config, old(View()))
    {
      match readerAt
      case Idle =>
        if todo == [] {
          readerAt := ReaderDone;
        } else {
          StartStatement();
        }
      case Filling => Pass(Idle);
      case Clear => readerAt, mutex := Locked, Reader;
      case Locked =>
        if dataSize > 0 && (todo[0].FinalDrain? || !writeError) {
          readerAt, mutex, readerWoken := Waiting, Nobody, false;
        } else {
          readerAt := Held;
        }
      case Held => UseSlot();
      case Drained =>
        if writeError {
          readerAt := ReaderDone;
        } else {
          Pass(Idle);
        }
      case Waking =>
        readerAt := Idle;
        writerWoken := writerWoken || writerAt.WWaiting?;
      case Leaving =>
        readerAt := ReaderDone;
        writerWoken := writerWoken || writerAt.WWaiting?;
    }

    // ------------------------------------------------------------ the writer

    function SlotBytes(): (r: seq<byte>)
      reads this
      ensures r == Slot(View())
    {
      var bytes := work.mem.Get(data);
      if dataSize <= |bytes| then bytes[..dataSize] else bytes
    }

    method WriteSlot()
      modifies this`disk
      ensures Output(file, disk) == Append(old(Output(file, disk)), old(Slot(View()))) && Slot(View()) == old(Slot(View()))
    {
      if file.Some? {
        disk := disk[file.value := (if file.value in disk then disk[file.value] else []) + SlotBytes()];
      }
    }

    method CountSlot()
      modifies this`writerAt, this`dataWritten, this`Emitted, this`dataSize
      ensures WriterView() == Counted(old(View())).writer && SharedView() == Counted(old(View())).shared
    {
      if dataSize > 0 {
        Emitted := Emitted + [SlotBytes()];
      }
      writerAt := Wrote;
      dataWritten := dataWritten + dataSize;
      dataSize := 0;
    }

    /** The writer with the mutex, past the wait. */
    method EmptySlot()
      requires writerAt.WHeld? && WriterEnabled(config, View())
      modifies this`writerAt, this`mutex, this`disk, this`dataWritten, this`Emitted, this`dataSize
      ensures View() == WriterNext(config, old(View()))
    {
      hide Append, WriterNext, Slot, SlotBytes, Counted;
      HeldState(config, View());
      if readError || transferCancelled || (!config.usb && file.None?) {
        writerAt, mutex := WriterDone, Nobody;
        return;
      }
      CountsTheSame(View());
      WriteSlot();
      CountSlot();
    }

    method WriteThread()
      requires WriterEnabled(config, View())
      modifies this
      ensures View() == WriterNext(config, old(View()))
    {
      match writerAt
      case Top =>
        if dataWritten < config.total {
          writerAt, mutex := WLocked, Writer;
        } else {
          writerAt := WriterDone;
        }
      case WLocked => writerAt := if dataSize == 0 && !readError then Sleepy else WHeld;
      case Sleepy => writerAt, mutex, writerWoken := WWaiting, Nobody, false;
      case WHeld => EmptySlot();
      case Wrote =>
        mutex := Nobody;
        if config.wake.Fused? {
          readerWoken := readerWoken || readerAt.Waiting?;
          writerAt := if writeError then WriterDone else Top;
        } else {
          writerAt := WWaking;
        }
      case WWaking =>
        readerWoken := readerWoken || readerAt.Waiting?;
        writerAt := if writeError then WriterDone else Top;
    }

    // ------------------------------------------------- one step, and all steps

    method Step(e: Event)
      requires Enabled(config, View(), e)
      modifies this
      ensures View() == Next(config, old(View()), e)
    {
      hide ReaderNext, WriterNext, WorkStep;
      match e
      case ReaderStep => ReadThread();
      case WriterStep => WriteThread();
      case ReaderFill(garbage) => StartRead(garbage);
      case ReaderFail => readerAt, readError := Leaving, true;
      case ReaderResume => readerAt, mutex := Held, Reader;
      case WriterFail => writerAt, writeError := Wrote, true;
      case WriterResume => writerAt, mutex := WHeld, Writer;
      case _ => Supervise(e);
    }

    method StartRead(garbage: seq<byte>)
      requires todo != [] && todo[0].Load?
      modifies this`work, this`readerAt
      ensures ReaderView() ==
        old(ReaderView()).(at := Filling, work := WorkStep(old(work), Load(todo[0].buf, garbage)))
    {
      work := WorkStep(work, Load(todo[0].buf, garbage));
      readerAt := Filling;
    }

    /** The supervisor polls, cancels, and joins the threads one after the other. */
    method Supervise(e: Event)
      requires e.Cancel? || e.StopPolling? || e.JoinNext?
      requires Enabled(config, View(), e)
      modifies this`transferCancelled, this`supervisor
      ensures View() == Next(config, old(View()), e)
    {
      match e
      case Cancel => transferCancelled, supervisor := true, JoinReader;
      case StopPolling => supervisor := JoinReader;
      case JoinNext =>
        if supervisor.JoinReader? {
          supervisor := JoinWriter;
        } else {
          supervisor := Ended(!(readError || writeError || transferCancelled));
        }
    }

    /**
     * The whole dump under some schedule.  If it is reported as successful, the
     * output is what the reader's statements alone would have written.
     */
    method Dump(run: seq<Event>) returns (success: bool)
      requires View() == Init(config) && Exec(config, run).Some?
      requires WellFormed(config)
      modifies this
      ensures View() == Exec(config, run).value
      ensures success == (supervisor == Ended(true))
      ensures success ==>
        todo == [] && dataWritten == config.total && Emitted == RefRun(config, RefInit(config), Done).published &&
        Output(file, disk) == RefRun(config, RefInit(config), Done).output
    {
      PrefixRuns(config, run, 0);
      for i := 0 to |run|
        invariant Exec(config, run[..i]).Some? && View() == Exec(config, run[..i]).value
      {
        PrefixRuns(config, run, i + 1);
        assert run[..i + 1][..i] == run[..i];
        Step(run[i]);
      }
      assert run[..|run|] == run;
      success := supervisor == Ended(true);
      if success {
        SuccessIsExact(config, run);
      }
    }
  }

  lemma HandedOverState(c: Config, s: State)
    requires s.reader.todo != [] && s.reader.todo[0].Publish? && !s.shared.writeError
    ensures var handed := s.shared.(lock := Nobody, data := s.reader.todo[0].buf, dataSize := s.reader.todo[0].size);
      ReaderHolds(c, s) ==
        State(if c.wake.Fused? then Past(c, s.reader) else Past(c, s.reader).(at := Waking), s.writer,
              if c.wake.Fused? then WakeWriter(handed, s.writer.at) else handed, s.output, s.supervisor)
  {
  }

  /** The writer has counted the block in the slot and taken it out. */
  ghost function Counted(s: State): State
  {
    s.(writer := WriterState(Wrote, s.writer.written + s.shared.dataSize,
                             if s.shared.dataSize > 0 then s.writer.emitted + [Slot(s)] else s.writer.emitted),
       shared := s.shared.(dataSize := 0))
  }

  lemma CountsTheSame(s: State)
    ensures forall o :: Counted(s.(output := o)) == Counted(s).(output := o)
  {
  }

  lemma HeldState(c: Config, s: State)
    requires s.writer.at.WHeld? && WriterEnabled(c, s)
    ensures WriterNext(c, s) ==
      if WriterLeaves(c, s) then
        State(s.reader, s.writer.(at := WriterDone), s.shared.(lock := Nobody), s.output, s.supervisor)
      else
        State(s.reader, Counted(s).writer, Counted(s).shared, Append(s.output, Slot(s)), s.supervisor)
  {
  }

  /** What can be run can be run up to any point. */
  lemma {:induction false} PrefixRuns(c: Config, run: seq<Event>, i: nat)
    requires Exec(c, run).Some? && i <= |run|
    ensures Exec(c, run[..i]).Some?
    decreases |run|
  {
    if i == |run| {
      assert run[..i] == run;
    } else {
      PrefixRuns(c, run[..|run| - 1], i);
      assert run[..|run| - 1][..i] == run[..i];
    }
  }
}
