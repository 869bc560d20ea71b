/** Copying a body while it streams: one copier reads frames and sends each to a copy channel (its data) and
    to the main channel (the frame), both bounded. Receivers read, or go away, at any time. */
module BodyTee {
  import opened Wrappers

  type Bytes = seq<bv8>

  datatype Frame = Data(data: Bytes) | Trailers(fields: map<string, string>) | Failed(message: string)

  const CAPACITY := 100

  /** Where the copier is: at the next frame, waiting to send a frame, or over. */
  datatype Task = Reading | SendingCopy(frame: Frame) | SendingMain(frame: Frame) | Over

  /** `copySent` and `mainSent` are all that was ever put into the channels, `copyGot` and `mainGot` the
      part of it that was received. */
  datatype State = State(
    unread: seq<Frame>,
    task: Task,
    copySent: seq<Bytes>,
    copyGot: nat,
    copyOpen: bool,
    mainSent: seq<Frame>,
    mainGot: nat,
    mainOpen: bool)

  datatype Step = TaskMoves | CopyReceives | MainReceives | CopyDropped | MainDropped

  function Start(body: seq<Frame>, upperHint: Option<nat>): State {
    State(body, if upperHint == Some(0) then Over else Reading, [], 0, true, [], 0, true)
  }

  predicate CopyHasRoom(s: State) {
    |s.copySent| - s.copyGot < CAPACITY
  }

  predicate MainHasRoom(s: State) {
    |s.mainSent| - s.mainGot < CAPACITY
  }

  predicate Enabled(s: State, step: Step) {
    match step
    case TaskMoves =>
      (match s.task
       case Reading => true
       case SendingCopy(_) => !s.copyOpen || CopyHasRoom(s)
       case SendingMain(_) => !s.mainOpen || MainHasRoom(s)
       case Over => false)
    case CopyReceives => s.copyOpen && s.copyGot < |s.copySent|
    case MainReceives => s.mainOpen && s.mainGot < |s.mainSent|
    case CopyDropped => s.copyOpen
    case MainDropped => s.mainOpen
  }

  function Next(s: State, step: Step): State
    requires Enabled(s, step)
  {
    match step
    case TaskMoves =>
      (match s.task
       case Reading =>
         if s.unread == [] then s.(task := Over)
         else
           s.(unread := s.unread[1..],
              task := if s.unread[0].Data? then SendingCopy(s.unread[0]) else SendingMain(s.unread[0]))
       case SendingCopy(frame) =>
         if s.copyOpen && frame.Data?
         then s.(copySent := s.copySent + [frame.data], task := SendingMain(frame))
         else s.(task := SendingMain(frame))
       case SendingMain(frame) =>
         if s.mainOpen then s.(mainSent := s.mainSent + [frame], task := Reading) else s.(task := Over))
    case CopyReceives => s.(copyGot := s.copyGot + 1)
    case MainReceives => s.(mainGot := s.mainGot + 1)
    case CopyDropped => s.(copyOpen := false)
    case MainDropped => s.(mainOpen := false)
  }

  // ---- The copier, its channels and their receivers, step by step in place ----

  class Tee {
    var unread: seq<Frame>
    var task: Task
    var copySent: seq<Bytes>
    var copyGot: nat
    var copyOpen: bool
    var mainSent: seq<Frame>
    var mainGot: nat
    var mainOpen: bool

    constructor (body: seq<Frame>, upperHint: Option<nat>)
      ensures Current() == Start(body, upperHint)
    {
      unread, copySent, copyGot, copyOpen, mainSent, mainGot, mainOpen := body, [], 0, true, [], 0, true;
      task := if upperHint == Some(0) then Over else Reading;
    }

    function Current(): State
      reads this
    {
      State(unread, task, copySent, copyGot, copyOpen, mainSent, mainGot, mainOpen)
    }

    /** Goes as far as the next wait: for a frame, for room in a channel, or for good. */
    method RunTask()
      requires Enabled(Current(), TaskMoves)
      modifies this
      ensures Current() == Next(old(Current()), TaskMoves)
    {
      match task {
        case Reading =>
          if unread == [] {
            task := Over;
          } else {
            var frame := unread[0];
            unread := unread[1..];
            task := if frame.Data? then SendingCopy(frame) else SendingMain(frame);
          }
        case SendingCopy(frame) =>
          if copyOpen && frame.Data? {
            copySent := copySent + [frame.data];
          }
          task := SendingMain(frame);
        case SendingMain(frame) =>
          if !mainOpen {
            task := Over;
          } else {
            mainSent := mainSent + [frame];
            task := Reading;
          }
      }
    }

    method ReceiveCopy() returns (data: Bytes)
      requires Enabled(Current(), CopyReceives)
      modifies this`copyGot
      ensures Current() == Next(old(Current()), CopyReceives) && data == copySent[old(copyGot)]
    {
      data := copySent[copyGot];
      copyGot := copyGot + 1;
    }

    method ReceiveMain() returns (frame: Frame)
      requires Enabled(Current(), MainReceives)
      modifies this`mainGot
      ensures Current() == Next(old(Current()), MainReceives) && frame == mainSent[old(mainGot)]
    {
      frame := mainSent[mainGot];
      mainGot := mainGot + 1;
    }
  }

  // ---- Every run ----

  ghost predicate Run(body: seq<Frame>, upperHint: Option<nat>, steps: seq<Step>, states: seq<State>) {
    && |states| == |steps| + 1
    && states[0] == Start(body, upperHint)
    && forall i | 0 <= i < |steps| :: Enabled(states[i], steps[i]) && states[i + 1] == Next(states[i], steps[i])
  }

  function DataOf(frames: seq<Frame>): seq<Bytes> {
    if frames == [] then []
    else
      var last := frames[|frames| - 1];
      DataOf(frames[..|frames| - 1]) + if last.Data? then [last.data] else []
  }

  lemma DataOfMore(frames: seq<Frame>, frame: Frame)
    ensures DataOf(frames + [frame]) == DataOf(frames) + if frame.Data? then [frame.data] else []
  {
    assert (frames + [frame])[..|frames + [frame]| - 1] == frames;
  }

  function InHand(s: State): seq<Frame> {
    match s.task
    case SendingCopy(frame) => [frame]
    case SendingMain(frame) => [frame]
    case _ => []
  }

  /** While the copy receiver lives, the copy holds the data of the frames sent to the main channel and, if
      the copier has copied it already, of the next one: the frame in hand, or the one it gave up on. */
  predicate CopyKeepsUp(s: State, body: seq<Frame>) {
    s.copyOpen ==>
      if s.task.SendingMain? then s.copySent == DataOf(s.mainSent + [s.task.frame])
      else s.copySent == DataOf(s.mainSent) || (s.task.Over? && !s.mainOpen && OneAhead(s, body))
  }

  predicate OneAhead(s: State, body: seq<Frame>) {
    |s.mainSent| < |body| && s.copySent == DataOf(s.mainSent + [body[|s.mainSent|]])
  }

  /** Frames sent, in hand and unread make up the body, as long as nobody hung up. */
  predicate Whole(s: State, body: seq<Frame>) {
    && s.mainSent <= body
    && (s.mainOpen || !s.task.Over? ==> s.mainSent + InHand(s) + s.unread == body)
    && (s.mainOpen && s.task.Over? ==> s.unread == [])
  }

  predicate Bounded(s: State) {
    && s.copyGot <= |s.copySent| && s.mainGot <= |s.mainSent|
    && (s.copyOpen ==> |s.copySent| - s.copyGot <= CAPACITY)
    && (s.mainOpen ==> |s.mainSent| - s.mainGot <= CAPACITY)
    && (s.task.SendingCopy? ==> s.task.frame.Data?)
  }

  predicate Sound(s: State, body: seq<Frame>) {
    CopyKeepsUp(s, body) && Whole(s, body) && Bounded(s)
  }

  lemma NextInHand(s: State, body: seq<Frame>)
    requires Whole(s, body) && s.task.SendingMain?
    ensures |s.mainSent| < |body| && body[|s.mainSent|] == s.task.frame && s.mainSent + [s.task.frame] <= body
    ensures s.mainSent + [s.task.frame] + s.unread == body
  {
    assert body == s.mainSent + [s.task.frame] + s.unread;
  }

  lemma NextKeepsCopy(s: State, body: seq<Frame>, step: Step)
    requires Sound(s, body) && Enabled(s, step)
    ensures CopyKeepsUp(Next(s, step), body)
  {
    if step == TaskMoves && s.task.SendingMain? {
      NextInHand(s, body);
    }
    hide DataOf, Whole;
    if step == TaskMoves && s.task.SendingCopy? {
      DataOfMore(s.mainSent, s.task.frame);
    }
    if step == TaskMoves && s.task.Reading? && s.unread != [] {
      DataOfMore(s.mainSent, s.unread[0]);
      assert DataOf(s.mainSent) + [] == DataOf(s.mainSent);
    }
  }

  lemma NextKeepsWhole(s: State, body: seq<Frame>, step: Step)
    requires Whole(s, body) && Enabled(s, step)
    ensures Whole(Next(s, step), body)
  {
    if step == TaskMoves {
      match s.task
      case Reading =>
        assert s.mainSent + [] + s.unread == s.mainSent + s.unread;
        if s.unread != [] {
          assert s.mainSent + [s.unread[0]] + s.unread[1..] == s.mainSent + s.unread;
        }
      case SendingCopy(frame) =>
      case SendingMain(frame) =>
        NextInHand(s, body);
        assert s.mainSent + [frame] + [] + s.unread == s.mainSent + [frame] + s.unread;
    }
  }

  lemma NextKeepsBounded(s: State, step: Step)
    requires Bounded(s) && Enabled(s, step)
    ensures Bounded(Next(s, step))
  {
  }

  lemma {:induction false} RunIsSound(body: seq<Frame>, steps: seq<Step>, states: seq<State>, upperHint: Option<nat>,
                                      i: nat)
    requires Run(body, upperHint, steps, states) && i <= |steps| && (upperHint == Some(0) ==> body == [])
    ensures Sound(states[i], body)
    decreases i
  {
    hide Enabled, Next, CopyKeepsUp, Whole, Bounded;
    if i == 0 {
      StartIsSound(body, upperHint);
    } else {
      RunIsSound(body, steps, states, upperHint, i - 1);
      assert states[i - 1 + 1] == Next(states[i - 1], steps[i - 1]) && Enabled(states[i - 1], steps[i - 1]);
      NextKeepsCopy(states[i - 1], body, steps[i - 1]);
      NextKeepsWhole(states[i - 1], body, steps[i - 1]);
      NextKeepsBounded(states[i - 1], steps[i - 1]);
    }
  }

  lemma StartIsSound(body: seq<Frame>, upperHint: Option<nat>)
    requires upperHint == Some(0) ==> body == []
    ensures Sound(Start(body, upperHint), body)
  {
    assert [] + [] + body == body;
  }

  /** Frames sent on the main channel are always a prefix of the body, whatever becomes of the copy. While
      the copy receiver lives, the copied data is that prefix's data, at most one frame ahead. */
  lemma MainIsPrefix(body: seq<Frame>, upperHint: Option<nat>, steps: seq<Step>, states: seq<State>, i: nat)
    requires Run(body, upperHint, steps, states) && i <= |steps|
    ensures var s := states[i];
            && s.mainSent <= body
            && (s.copyOpen ==>
                  || s.copySent == DataOf(s.mainSent)
                  || (|s.mainSent| < |body| && s.copySent == DataOf(s.mainSent + [body[|s.mainSent|]])))
  {
    if upperHint == Some(0) {
      NothingMoves(body, steps, states, i);
    } else {
      RunIsSound(body, steps, states, upperHint, i);
      var s := states[i];
      hide Run, DataOf;
      if s.task.SendingMain? {
        NextInHand(s, body);
      }
    }
  }

  lemma {:induction false} NothingMoves(body: seq<Frame>, steps: seq<Step>, states: seq<State>, i: nat)
    requires Run(body, Some(0), steps, states) && i <= |steps|
    ensures var s := states[i];
            s.task == Over && s.mainSent == [] && s.copySent == [] && s.mainGot == 0 && s.copyGot == 0
              && s.unread == body
    decreases i
  {
    if i > 0 {
      NothingMoves(body, steps, states, i - 1);
      assert states[i - 1 + 1] == Next(states[i - 1], steps[i - 1]) && Enabled(states[i - 1], steps[i - 1]);
    }
  }

  // ---- Nothing is held up for good ----

  /** The copier and the receivers can do no more; only hanging up is left. */
  predicate Quiet(s: State) {
    !Enabled(s, TaskMoves) && !Enabled(s, CopyReceives) && !Enabled(s, MainReceives)
  }

  /** When all has come to rest and the main receiver is still there, it has received the whole body, and so
      has the copy receiver its data, if it is still there too. A copy receiver that went away changes
      nothing for the main one. Only a body whose size hint rules out any data loses its frames. */
  lemma RestIsComplete(body: seq<Frame>, upperHint: Option<nat>, steps: seq<Step>, states: seq<State>, i: nat)
    requires Run(body, upperHint, steps, states) && i <= |steps| && Quiet(states[i]) && states[i].mainOpen
    ensures var s := states[i];
            && s.mainGot == |s.mainSent|
            && (s.mainSent == body <==> upperHint != Some(0) || body == [])
            && (s.copyOpen ==> s.copyGot == |s.copySent| && s.copySent == DataOf(s.mainSent))
  {
    if upperHint == Some(0) {
      NothingMoves(body, steps, states, i);
    } else {
      RunIsSound(body, steps, states, upperHint, i);
      var s := states[i];
      hide Run, DataOf;
      assert s.task == Over;
      assert s.mainSent + InHand(s) + s.unread == s.mainSent;
    }
  }

  function TaskRank(task: Task): nat {
    match task case Over => 0 case Reading => 1 case SendingMain(_) => 3 case SendingCopy(_) => 5
  }

  /** How much is left to do: frames to read and send, items to receive, receivers to go. */
  function LeftToDo(s: State): int {
    5 * |s.unread| + TaskRank(s.task) + (|s.copySent| - s.copyGot) + (|s.mainSent| - s.mainGot)
    + (if s.copyOpen then 1 else 0) + (if s.mainOpen then 1 else 0)
  }

  /** Every step leaves less to do, so every run is finite and comes to rest. */
  lemma EveryStepCounts(body: seq<Frame>, upperHint: Option<nat>, steps: seq<Step>, states: seq<State>, i: nat)
    requires Run(body, upperHint, steps, states) && i < |steps|
    ensures 0 <= LeftToDo(states[i + 1]) < LeftToDo(states[i])
  {
    RunIsBounded(body, upperHint, steps, states, i);
    RunIsBounded(body, upperHint, steps, states, i + 1);
    assert Enabled(states[i], steps[i]) && states[i + 1] == Next(states[i], steps[i]);
    hide Run;
  }

  lemma {:induction false} RunIsBounded(body: seq<Frame>, upperHint: Option<nat>, steps: seq<Step>, states: seq<State>,
                                        i: nat)
    requires Run(body, upperHint, steps, states) && i <= |steps|
    ensures Bounded(states[i])
    decreases i
  {
    hide Enabled, Next, Bounded;
    if i == 0 {
      StartIsBounded(body, upperHint);
    } else {
      RunIsBounded(body, upperHint, steps, states, i - 1);
      assert states[i - 1 + 1] == Next(states[i - 1], steps[i - 1]) && Enabled(states[i - 1], steps[i - 1]);
      NextKeepsBounded(states[i - 1], steps[i - 1]);
    }
  }

  lemma StartIsBounded(body: seq<Frame>, upperHint: Option<nat>)
    ensures Bounded(Start(body, upperHint))
  {
  }

  /** Once the copy receiver is gone, only a full main channel can hold up the copier. */
  lemma CopyGoneNeverBlocks(s: State)
    requires !s.copyOpen && s.task != Over && !Enabled(s, TaskMoves)
    ensures s.mainOpen && |s.mainSent| - s.mainGot >= 100
  {
  }
}
