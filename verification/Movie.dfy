/**
 Input movies: inputs are recorded as 7-byte states, played back, and taken into save states,
 from which a recording can branch.
 */
module Movies {
  import opened Common

  type U16 = x: int | 0 <= x < 0x1_0000

  const STATE_SIZE: nat := 7

  datatype Kind = PadAndCircle | Touch | Accelerometer | Gyroscope | IrRst | ExtraHidResponse

  /** The inputs, with the ranges of their bit fields. */
  datatype Input =
    | PadInput(buttons: nat, circleX: S16, circleY: S16)                // 14 bits
    | TouchInput(touchX: U16, touchY: U16, valid: nat)                  // 7 bits
    | AccelerometerInput(ax: S16, ay: S16, az: S16)
    | GyroscopeInput(gx: S16, gy: S16, gz: S16)
    | IrRstInput(cStickX: S16, cStickY: S16, zl: bool, zr: bool)
    | ExtraHidInput(battery: nat, zlNotHeld: bool, zrNotHeld: bool, rNotHeld: bool, stickX: int, stickY: int)

  predicate InRange(i: Input) {
    && (i.PadInput? ==> i.buttons < 0x4000)
    && (i.TouchInput? ==> i.valid < 0x80)
    && (i.ExtraHidInput? ==> i.battery < 0x20 && 0 <= i.stickX < 0x1000 && 0 <= i.stickY < 0x1000)
  }

  function KindOf(i: Input): Kind {
    match i
    case PadInput(_, _, _) => PadAndCircle
    case TouchInput(_, _, _) => Touch
    case AccelerometerInput(_, _, _) => Accelerometer
    case GyroscopeInput(_, _, _) => Gyroscope
    case IrRstInput(_, _, _, _) => IrRst
    case ExtraHidInput(_, _, _, _, _, _) => ExtraHidResponse
  }

  function Tag(k: Kind): Byte {
    match k
    case PadAndCircle => 0
    case Touch => 1
    case Accelerometer => 2
    case Gyroscope => 3
    case IrRst => 4
    case ExtraHidResponse => 5
  }

  // ---------- one state of 7 bytes ----------

  function Unsigned(x: S16): U16 { if x < 0 then x + 0x1_0000 else x }

  function SignedOf(x: U16): S16 { if x < 0x8000 then x else x - 0x1_0000 }

  function Lo(x: U16): Byte { x % 256 }

  function Hi(x: U16): Byte { x / 256 }

  function Word(lo: Byte, hi: Byte): U16 { lo + 256 * hi }

  /** The 12-bit fields of three bytes. */
  function Low12(a: int, b: int): int { a + b % 16 * 256 }

  function High12(b: int, c: int): int { b / 16 + c * 16 }

  function Bit(b: bool): Byte { if b then 1 else 0 }

  function Three(tag: Byte, x: U16, y: U16, z: U16): seq<Byte> { [tag, Lo(x), Hi(x), Lo(y), Hi(y), Lo(z), Hi(z)] }

  /** What `Record` writes; unused bytes are zero. */
  function Encode(i: Input): (r: seq<Byte>)
    requires InRange(i)
    ensures |r| == STATE_SIZE && r[0] == Tag(KindOf(i))
  {
    match i
    case PadInput(buttons, x, y) => Three(0, buttons, Unsigned(x), Unsigned(y))
    case TouchInput(x, y, valid) => Three(1, x, y, valid)
    case AccelerometerInput(x, y, z) => Three(2, Unsigned(x), Unsigned(y), Unsigned(z))
    case GyroscopeInput(x, y, z) => Three(3, Unsigned(x), Unsigned(y), Unsigned(z))
    case IrRstInput(x, y, zl, zr) => Three(4, Unsigned(x), Unsigned(y), Word(Bit(zl), Bit(zr)))
    case ExtraHidInput(battery, zl, zr, r, x, y) =>
      [5, battery + 0x20 * Bit(zl) + 0x40 * Bit(zr) + 0x80 * Bit(r), x % 256, x / 256 + y % 16 * 16, y / 16, 0, 0]
  }

  /** What `Play` takes out of a state for an input that is now `now`: the input is kept when
      the state is of another type. */
  function Decode(b: seq<Byte>, now: Input): Input
    requires |b| == STATE_SIZE
  {
    var x, y, z := Word(b[1], b[2]), Word(b[3], b[4]), Word(b[5], b[6]);
    if b[0] != Tag(KindOf(now)) then now
    else
      match now
      case PadInput(_, _, _) => PadInput(x % 0x4000, SignedOf(y), SignedOf(z))
      case TouchInput(_, _, _) => TouchInput(x, y, b[5] % 0x80)
      case AccelerometerInput(_, _, _) => AccelerometerInput(SignedOf(x), SignedOf(y), SignedOf(z))
      case GyroscopeInput(_, _, _) => GyroscopeInput(SignedOf(x), SignedOf(y), SignedOf(z))
      case IrRstInput(_, _, _, _) => IrRstInput(SignedOf(x), SignedOf(y), b[5] % 2 == 1, b[6] % 2 == 1)
      case ExtraHidInput(_, _, _, _, _, _) =>
        ExtraHidInput(b[1] % 0x20, b[1] / 0x20 % 2 == 1, b[1] / 0x40 % 2 == 1, b[1] / 0x80 % 2 == 1,
                      Low12(b[2], b[3]), High12(b[3], b[4]))
  }

  lemma ThreeParts(tag: Byte, x: U16, y: U16, z: U16)
    ensures var b := Three(tag, x, y, z);
            b[0] == tag && Word(b[1], b[2]) == x && Word(b[3], b[4]) == y && Word(b[5], b[6]) == z && b[5] == z % 256
  {
  }

  lemma SignedParts(x: S16)
    ensures SignedOf(Unsigned(x)) == x
  {
  }

  lemma PadDecodes(i: Input, now: Input)
    requires InRange(i) && i.PadInput? && now.PadInput?
    ensures Decode(Encode(i), now) == i
  {
    ThreeParts(0, i.buttons, Unsigned(i.circleX), Unsigned(i.circleY));
    SignedParts(i.circleX);
    SignedParts(i.circleY);
  }

  lemma TouchDecodes(i: Input, now: Input)
    requires InRange(i) && i.TouchInput? && now.TouchInput?
    ensures Decode(Encode(i), now) == i
  {
    ThreeParts(1, i.touchX, i.touchY, i.valid);
  }

  lemma MotionDecodes(i: Input, now: Input)
    requires KindOf(now) == KindOf(i) && (i.AccelerometerInput? || i.GyroscopeInput?)
    ensures Decode(Encode(i), now) == i
  {
    if i.AccelerometerInput? {
      ThreeParts(2, Unsigned(i.ax), Unsigned(i.ay), Unsigned(i.az));
      SignedParts(i.ax);
      SignedParts(i.ay);
      SignedParts(i.az);
    } else {
      ThreeParts(3, Unsigned(i.gx), Unsigned(i.gy), Unsigned(i.gz));
      SignedParts(i.gx);
      SignedParts(i.gy);
      SignedParts(i.gz);
    }
  }

  lemma ButtonParts(x: U16, y: U16, zl: bool, zr: bool)
    ensures var b := Three(4, x, y, Word(Bit(zl), Bit(zr)));
            (b[5] % 2 == 1 <==> zl) && (b[6] % 2 == 1 <==> zr)
  {
  }

  lemma IrRstDecodes(i: Input, now: Input)
    requires InRange(i) && i.IrRstInput? && now.IrRstInput?
    ensures Decode(Encode(i), now) == i
  {
    ThreeParts(4, Unsigned(i.cStickX), Unsigned(i.cStickY), Word(Bit(i.zl), Bit(i.zr)));
    ButtonParts(Unsigned(i.cStickX), Unsigned(i.cStickY), i.zl, i.zr);
    SignedParts(i.cStickX);
    SignedParts(i.cStickY);
  }

  lemma ExtraHidDecodes(i: Input, now: Input)
    requires InRange(i) && i.ExtraHidInput? && now.ExtraHidInput?
    ensures Decode(Encode(i), now) == i
  {
    FlagsParts(i.battery, i.zlNotHeld, i.zrNotHeld, i.rNotHeld);
    StickParts(i.stickX, i.stickY);
  }

  /** Playing back a state gives the recorded input, for all inputs of all kinds. */
  lemma DecodeEncode(i: Input, now: Input)
    requires InRange(i) && KindOf(now) == KindOf(i)
    ensures Decode(Encode(i), now) == i
  {
    match i {
      case PadInput(_, _, _) => PadDecodes(i, now);
      case TouchInput(_, _, _) => TouchDecodes(i, now);
      case AccelerometerInput(_, _, _) => MotionDecodes(i, now);
      case GyroscopeInput(_, _, _) => MotionDecodes(i, now);
      case IrRstInput(_, _, _, _) => IrRstDecodes(i, now);
      case ExtraHidInput(_, _, _, _, _, _) => ExtraHidDecodes(i, now);
    }
  }

  lemma FlagsParts(battery: nat, zl: bool, zr: bool, r: bool)
    requires battery < 0x20
    ensures var b1 := battery + 0x20 * Bit(zl) + 0x40 * Bit(zr) + 0x80 * Bit(r);
            && b1 % 0x20 == battery && (b1 / 0x20 % 2 == 1 <==> zl) && (b1 / 0x40 % 2 == 1 <==> zr)
            && (b1 / 0x80 % 2 == 1 <==> r)
  {
  }

  lemma StickParts(x: int, y: int)
    requires 0 <= x < 0x1000 && 0 <= y < 0x1000
    ensures var b3 := x / 256 + y % 16 * 16;
            Low12(x % 256, b3) == x && High12(b3, y / 16) == y
  {
  }

  // ---------- recordings ----------

  predicate AreStates(states: seq<seq<Byte>>) { forall i :: 0 <= i < |states| ==> |states[i]| == STATE_SIZE }

  function Joined(states: seq<seq<Byte>>): (r: seq<Byte>)
    requires AreStates(states)
    ensures |r| == STATE_SIZE * |states|
  {
    if states == [] then [] else Joined(states[..|states| - 1]) + states[|states| - 1]
  }

  function States(inputs: seq<Input>): (r: seq<seq<Byte>>)
    requires forall i :: 0 <= i < |inputs| ==> InRange(inputs[i])
    ensures |r| == |inputs| && AreStates(r)
    ensures forall i :: 0 <= i < |r| ==> r[i] == Encode(inputs[i])
  {
    seq(|inputs|, i requires 0 <= i < |inputs| => Encode(inputs[i]))
  }

  /** What is recorded: one state after the other. */
  function EncodeAll(inputs: seq<Input>): (r: seq<Byte>)
    requires forall i :: 0 <= i < |inputs| ==> InRange(inputs[i])
    ensures |r| == STATE_SIZE * |inputs|
  {
    Joined(States(inputs))
  }

  lemma SliceOfJoin(front: seq<Byte>, last: seq<Byte>, i: nat, j: nat)
    requires i <= j <= |front|
    ensures (front + last)[i..j] == front[i..j] && (front + last)[|front|..|front| + |last|] == last
  {
  }

  lemma {:induction false} JoinedAt(states: seq<seq<Byte>>, k: nat)
    requires AreStates(states) && k < |states|
    ensures Joined(states)[STATE_SIZE * k..STATE_SIZE * k + STATE_SIZE] == states[k]
  {
    var n := |states| - 1;
    if k < n {
      JoinedAt(states[..n], k);
      SliceOfJoin(Joined(states[..n]), states[n], STATE_SIZE * k, STATE_SIZE * k + STATE_SIZE);
    } else {
      SliceOfJoin(Joined(states[..n]), states[n], 0, 0);
    }
  }

  lemma StateAt(inputs: seq<Input>, k: nat)
    requires (forall i :: 0 <= i < |inputs| ==> InRange(inputs[i])) && k < |inputs|
    ensures EncodeAll(inputs)[STATE_SIZE * k..STATE_SIZE * k + STATE_SIZE] == Encode(inputs[k])
  {
    JoinedAt(States(inputs), k);
  }

  lemma NextState(inputs: seq<Input>, i: nat)
    requires (forall j :: 0 <= j < |inputs| ==> InRange(inputs[j])) && i < |inputs|
    ensures EncodeAll(inputs[..i + 1]) == EncodeAll(inputs[..i]) + Encode(inputs[i])
  {
    assert States(inputs[..i + 1])[..i] == States(inputs[..i]);
  }

  function Pads(inputs: seq<Input>): nat {
    if inputs == [] then 0
    else Pads(inputs[..|inputs| - 1]) + if inputs[|inputs| - 1].PadInput? then 1 else 0
  }

  /** The number of whole states of type pad. */
  function PadStates(input: seq<Byte>, states: nat): nat
    requires STATE_SIZE * states <= |input|
  {
    if states == 0 then 0
    else PadStates(input, states - 1) + if input[STATE_SIZE * (states - 1)] == Tag(PadAndCircle) then 1 else 0
  }

  /** `GetInputCount`: a partial state at the end does not count. */
  method GetInputCount(input: seq<Byte>) returns (count: nat)
    ensures count == PadStates(input, |input| / STATE_SIZE)
  {
    count := 0;
    var pos := 0;
    ghost var k := 0;
    while pos < |input|
      invariant pos == STATE_SIZE * k && pos <= |input| && count == PadStates(input, k)
    {
      if |input| < pos + STATE_SIZE {
        break;
      }
      if input[pos] == Tag(PadAndCircle) {
        count := count + 1;
      }
      pos, k := pos + STATE_SIZE, k + 1;
    }
    assert k == |input| / STATE_SIZE;
  }

  /** The count of a recording is the number of its pad inputs. */
  lemma {:induction false} CountOfRecording(inputs: seq<Input>, k: nat)
    requires (forall i :: 0 <= i < |inputs| ==> InRange(inputs[i])) && k <= |inputs|
    ensures PadStates(EncodeAll(inputs), k) == Pads(inputs[..k])
  {
    if k > 0 {
      CountOfRecording(inputs, k - 1);
      StateAt(inputs, k - 1);
      assert inputs[..k][..k - 1] == inputs[..k - 1];
      assert EncodeAll(inputs)[STATE_SIZE * (k - 1)..STATE_SIZE * (k - 1) + STATE_SIZE][0] == Tag(KindOf(inputs[k - 1]));
    }
  }

  // ---------- the movie ----------

  datatype PlayMode = NoMovie | Recording | Playing | MovieFinished

  /** What a save state holds of the movie. */
  datatype Saved = Saved(
    currentByte: nat,
    currentInput: nat,
    recorded: seq<Byte>,
    initTime: nat,
    baseTicks: int,
    id: nat,
    postMovie: bool)

  /** The start of a movie file; the version of the program is part of the environment. */
  datatype Header = Header(
    fileType: seq<Byte>,
    ofThisRevision: bool,
    id: nat,
    inputCount: nat,
    rerecords: nat)

  datatype MovieFile = MovieFile(header: Header, input: seq<Byte>)

  const MAGIC: seq<Byte> := [0x43, 0x54, 0x4D, 0x1B]

  datatype Validation = Fine | RevisionDismatch | Invalid

  function ValidateHeader(header: Header): Validation {
    if header.fileType != MAGIC then Invalid else if header.ofThisRevision then Fine else RevisionDismatch
  }

  predicate Playable(file: Option<MovieFile>) {
    file.Some? && file.value.input != [] && file.value.header.fileType == MAGIC
  }

  datatype LoadResult = Loaded | MustCloseMovie | MustLoadSameMovie | FutureEvent | TimelineMismatch

  predicate InRecording(s: Saved) {
    s.currentByte % STATE_SIZE == 0 && |s.recorded| % STATE_SIZE == 0 && s.currentByte <= |s.recorded|
  }

  /** Which of the checks of loading fails first. */
  function CheckLoad(s: Saved, id: nat, readOnly: bool, recorded: seq<Byte>): LoadResult {
    if id != s.id then (if s.id == 0 then MustCloseMovie else MustLoadSameMovie)
    else if id == 0 || s.postMovie || !readOnly then Loaded
    else if |s.recorded| >= |recorded| then FutureEvent
    else if !(s.recorded <= recorded) then TimelineMismatch
    else Loaded
  }

  class Movie {
    var playMode: PlayMode
    var readOnly: bool
    var recordedInput: seq<Byte>
    var currentByte: nat
    var currentInput: nat
    var totalInput: nat
    var rerecordCount: nat
    var initTime: nat
    var baseTicks: int
    var id: nat

    /** While playing there is a whole state to play; recording goes on at a whole state. */
    predicate Valid()
      reads this
    {
      && (playMode.Playing? || playMode.Recording? ==>
            currentByte % STATE_SIZE == 0 && |recordedInput| % STATE_SIZE == 0 && currentByte <= |recordedInput|)
      && (playMode.Playing? ==> currentByte + STATE_SIZE <= |recordedInput|)
    }

    constructor ()
      ensures Valid() && playMode == NoMovie && recordedInput == [] && currentByte == 0 && id == 0 && readOnly
    {
      playMode, readOnly, recordedInput, currentByte, currentInput := NoMovie, true, [], 0, 0;
      totalInput, rerecordCount, initTime, baseTicks, id := 0, 1, 0, -1, 0;
    }

    /** `StartPlayback`: a file that cannot be read, holds nothing behind its header or has the
        wrong magic bytes changes nothing; a wrong revision is no reason to stop. What is played may
        be anything: it is a recording exactly when it is whole states. */
    method StartPlayback(file: Option<MovieFile>)
      modifies this
      ensures Playable(file) ==>
                && playMode == Playing && recordedInput == file.value.input && currentByte == 0 && currentInput == 0
                && id == file.value.header.id && totalInput == file.value.header.inputCount
                && rerecordCount == file.value.header.rerecords
                && (Valid() <==> |file.value.input| % STATE_SIZE == 0)
      ensures !Playable(file) ==>
                && playMode == old(playMode) && recordedInput == old(recordedInput) && currentByte == old(currentByte)
                && currentInput == old(currentInput) && id == old(id) && totalInput == old(totalInput)
                && rerecordCount == old(rerecordCount)
      ensures readOnly == old(readOnly) && initTime == old(initTime) && baseTicks == old(baseTicks)
    {
      if file.None? || file.value.input == [] {
        return;
      }
      var header := file.value.header;
      if ValidateHeader(header) != Invalid {
        playMode, recordedInput, currentByte, currentInput, id := Playing, file.value.input, 0, 0, header.id;
        totalInput, rerecordCount := header.inputCount, header.rerecords;
      }
    }

    /** The byte position is not reset here: it is whatever is left from before. */
    method StartRecording(movieId: nat)
      modifies this
      ensures playMode == Recording && id == movieId && rerecordCount == 1
      ensures recordedInput == old(recordedInput) && currentByte == old(currentByte) && currentInput == old(currentInput)
      ensures readOnly == old(readOnly)
      ensures old(recordedInput) == [] && old(currentByte) == 0 ==> Valid()
    {
      playMode, id, rerecordCount := Recording, movieId, 1;
    }

    method CheckInputEnd()
      modifies this`playMode
      ensures playMode == if currentByte + STATE_SIZE > |recordedInput| then MovieFinished else old(playMode)
    {
      if currentByte + STATE_SIZE > |recordedInput| {
        playMode := MovieFinished;
      }
    }

    /** All overloads of `Play`: the input of type `now` is replaced by what was recorded. */
    method Play(now: Input) returns (played: Input)
      requires currentByte + STATE_SIZE <= |recordedInput|
      modifies this`currentByte, this`currentInput
      ensures played == Decode(recordedInput[old(currentByte)..old(currentByte) + STATE_SIZE], now)
      ensures currentByte == old(currentByte) + STATE_SIZE
      ensures currentInput == old(currentInput) + if now.PadInput? then 1 else 0
    {
      var s := recordedInput[currentByte..currentByte + STATE_SIZE];
      currentByte := currentByte + STATE_SIZE;
      if now.PadInput? {
        currentInput := currentInput + 1;
      }
      played := Decode(s, now);
    }

    /** `Record`: what was recorded behind the current position is cut off; a gap before it
        would be filled with zeros. */
    method Record(now: Input)
      requires InRange(now)
      modifies this`recordedInput, this`currentByte, this`currentInput
      ensures recordedInput == Resized(old(recordedInput), old(currentByte)) + Encode(now)
      ensures currentByte == |recordedInput|
    {
      if now.PadInput? {
        currentInput := currentInput + 1;
      }
      recordedInput := Resized(recordedInput, currentByte) + Encode(now);
      currentByte := currentByte + STATE_SIZE;
    }

    /** `Handle`: plays, records, or leaves the input alone. The assertion never fires. */
    method Handle(now: Input) returns (r: Input)
      requires Valid() && InRange(now)
      modifies this
      ensures Valid() && id == old(id) && readOnly == old(readOnly)
      ensures match old(playMode)
              case Playing =>
                && r == Decode(old(recordedInput)[old(currentByte)..old(currentByte) + STATE_SIZE], now)
                && recordedInput == old(recordedInput) && currentByte == old(currentByte) + STATE_SIZE
                && playMode == if currentByte + STATE_SIZE > |recordedInput| then MovieFinished else Playing
              case Recording =>
                && r == now && playMode == Recording && currentByte == |recordedInput|
                && recordedInput == old(recordedInput)[..old(currentByte)] + Encode(now)
              case _ => r == now && unchanged(this)
    {
      r := now;
      if playMode.Playing? {
        assert currentByte + STATE_SIZE <= |recordedInput|;
        r := Play(now);
        CheckInputEnd();
      } else if playMode.Recording? {
        Record(now);
      }
    }

    /** Saving a state. */
    method Save() returns (s: Saved)
      ensures s == Saved(currentByte, currentInput, recordedInput, initTime, baseTicks, id, playMode.MovieFinished?)
      ensures Valid() && (playMode.Playing? || playMode.Recording?) ==> InRecording(s)
    {
      s := Saved(currentByte, currentInput, recordedInput, initTime, baseTicks, id, playMode.MovieFinished?);
    }

    /** Loading a state. The position, the input counter and the clocks are overwritten before
        any check, and stay overwritten when a check fails. */
    method Load(s: Saved) returns (r: LoadResult)
      modifies this
      ensures r == CheckLoad(s, old(id), old(readOnly), old(recordedInput))
      ensures currentByte == s.currentByte && currentInput == s.currentInput
      ensures initTime == s.initTime && baseTicks == s.baseTicks && id == old(id) && readOnly == old(readOnly)
      ensures !r.Loaded? || id == 0 ==> playMode == old(playMode) && recordedInput == old(recordedInput)
      ensures r.Loaded? && id != 0 ==>
                && recordedInput == (if readOnly then old(recordedInput) else s.recorded)
                && playMode == if s.postMovie then MovieFinished else if readOnly then Playing else Recording
      ensures rerecordCount == old(rerecordCount) + if r.Loaded? && id != 0 && !s.postMovie && !readOnly then 1 else 0
      ensures r.Loaded? && playMode.Playing? && id != 0 ==> totalInput == PadStates(recordedInput, |recordedInput| / STATE_SIZE)
    {
      currentByte, currentInput := s.currentByte, s.currentInput;
      initTime, baseTicks := s.initTime, s.baseTicks;
      if id != s.id {
        return if s.id == 0 then MustCloseMovie else MustLoadSameMovie;
      }
      if id != 0 {
        if !readOnly {
          recordedInput := s.recorded;
        }
        if s.postMovie {
          playMode := MovieFinished;
          return Loaded;
        }
        if readOnly {
          if |s.recorded| >= |recordedInput| {
            return FutureEvent;
          }
          if !(s.recorded <= recordedInput) {
            return TimelineMismatch;
          }
          playMode := Playing;
          totalInput := GetInputCount(recordedInput);
        } else {
          playMode := Recording;
          rerecordCount := rerecordCount + 1;
        }
      }
      r := Loaded;
    }

    method Shutdown()
      modifies this
      ensures Valid() && playMode == NoMovie && recordedInput == [] && currentByte == 0 && currentInput == 0
      ensures id == 0 && initTime == 0 && baseTicks == -1 && readOnly == old(readOnly)
    {
      playMode, recordedInput, currentByte, currentInput := NoMovie, [], 0, 0;
      initTime, baseTicks, id := 0, -1, 0;
    }
  }

  /** `resize(n)`, before the new state is copied in. */
  function Resized(recorded: seq<Byte>, n: nat): (r: seq<Byte>)
    ensures |r| == n
    ensures n <= |recorded| ==> r == recorded[..n]
  {
    if n <= |recorded| then recorded[..n] else recorded + seq(n - |recorded|, _ => 0)
  }

  // ---------- over whole runs ----------

  /** Loading a state of a recording. With a movie, a successful load keeps the positions at whole
      states. A failed load, and a load without a movie, leave mode and recording alone but not the
      position: that is still good exactly when, playing, a state is left behind it, and,
      recording, it is not past the end. */
  method LoadKeepsValid(m: Movie, s: Saved) returns (r: LoadResult)
    requires m.Valid() && InRecording(s) && |m.recordedInput| % STATE_SIZE == 0
    modifies m
    ensures r.Loaded? && m.id != 0 ==> m.Valid()
    ensures !r.Loaded? || m.id == 0 ==>
              && m.playMode == old(m.playMode) && m.recordedInput == old(m.recordedInput)
              && (m.Valid() <==>
                    && (m.playMode.Playing? ==> s.currentByte + STATE_SIZE <= |m.recordedInput|)
                    && (m.playMode.Recording? ==> s.currentByte <= |m.recordedInput|))
  {
    r := m.Load(s);
  }

  /** One input of a replay. */
  method ReplayOne(m: Movie, recorded: seq<Input>, i: nat, shown: Input) returns (r: Input)
    requires forall j :: 0 <= j < |recorded| ==> InRange(recorded[j])
    requires i < |recorded| && InRange(shown) && KindOf(shown) == KindOf(recorded[i])
    requires m.Valid() && m.playMode.Playing? && m.recordedInput == EncodeAll(recorded) && m.currentByte == STATE_SIZE * i
    modifies m
    ensures r == recorded[i] && m.Valid() && m.recordedInput == EncodeAll(recorded)
    ensures m.currentByte == STATE_SIZE * (i + 1)
    ensures m.playMode == if i + 1 == |recorded| then MovieFinished else Playing
  {
    StateAt(recorded, i);
    DecodeEncode(recorded[i], shown);
    r := m.Handle(shown);
  }

  /** Replaying a recording that is not empty, with inputs of the recorded kinds, gives the
      recorded inputs, and the movie is finished exactly after the last one. */
  method Replay(m: Movie, recorded: seq<Input>, shown: seq<Input>) returns (played: seq<Input>)
    requires recorded != [] && |shown| == |recorded|
    requires forall i :: 0 <= i < |recorded| ==>
               InRange(recorded[i]) && InRange(shown[i]) && KindOf(shown[i]) == KindOf(recorded[i])
    requires m.Valid() && m.playMode.Playing? && m.currentByte == 0 && m.recordedInput == EncodeAll(recorded)
    modifies m
    ensures played == recorded && m.playMode.MovieFinished? && m.recordedInput == EncodeAll(recorded)
  {
    played := [];
    for i := 0 to |shown|
      invariant m.Valid() && m.recordedInput == EncodeAll(recorded) && m.currentByte == STATE_SIZE * i
      invariant m.playMode == if i == |recorded| then MovieFinished else Playing
      invariant played == recorded[..i]
    {
      var r := ReplayOne(m, recorded, i, shown[i]);
      played := played + [r];
    }
  }

  /** After a state was loaded for writing, recording yields the first `currentByte` bytes of
      the state, then the new inputs. */
  method Rerecord(m: Movie, s: Saved, inputs: seq<Input>)
    requires m.id != 0 && m.id == s.id && !m.readOnly && !s.postMovie && InRecording(s)
    requires forall i :: 0 <= i < |inputs| ==> InRange(inputs[i])
    modifies m
    ensures m.Valid() && m.playMode.Recording?
    ensures m.recordedInput == if inputs == [] then s.recorded else s.recorded[..s.currentByte] + EncodeAll(inputs)
  {
    var result := m.Load(s);
    for i := 0 to |inputs|
      invariant m.Valid() && m.playMode.Recording?
      invariant i == 0 ==> m.recordedInput == s.recorded && m.currentByte == s.currentByte
      invariant i > 0 ==> m.recordedInput == s.recorded[..s.currentByte] + EncodeAll(inputs[..i])
                          && m.currentByte == |m.recordedInput|
    {
      RerecordOne(m, s, inputs, i);
    }
    assert inputs[..|inputs|] == inputs;
  }

  /** One input of a recording that branches off. */
  method RerecordOne(m: Movie, s: Saved, inputs: seq<Input>, i: nat)
    requires InRecording(s) && i < |inputs| && forall j :: 0 <= j < |inputs| ==> InRange(inputs[j])
    requires m.Valid() && m.playMode.Recording?
    requires i == 0 ==> m.recordedInput == s.recorded && m.currentByte == s.currentByte
    requires i > 0 ==> m.recordedInput == s.recorded[..s.currentByte] + EncodeAll(inputs[..i])
                       && m.currentByte == |m.recordedInput|
    modifies m
    ensures m.Valid() && m.playMode.Recording? && m.currentByte == |m.recordedInput|
    ensures m.recordedInput == s.recorded[..s.currentByte] + EncodeAll(inputs[..i + 1])
  {
    NextState(inputs, i);
    AppendEncoded(s.recorded[..s.currentByte], EncodeAll(inputs[..i]), Encode(inputs[i]));
    var r := m.Handle(inputs[i]);
  }

  lemma AppendEncoded(front: seq<Byte>, middle: seq<Byte>, last: seq<Byte>)
    ensures front + (middle + last) == front + middle + last
    ensures (front + middle)[..|front + middle|] == front + middle
  {
  }

  /** A load that fails without a movie leaves its position behind: the recording started next
      begins with that many zeros. */
  method FailedLoadShiftsRecording(m: Movie, s: Saved, movieId: nat, first: Input)
    requires m.playMode.NoMovie? && m.id == 0 && m.recordedInput == [] && m.currentByte == 0
    requires s.id != 0 && InRecording(s) && InRange(first)
    modifies m
    ensures m.recordedInput == seq(s.currentByte, _ => 0) + Encode(first)
  {
    var r := m.Load(s);
    m.StartRecording(movieId);
    assert [] + seq(s.currentByte, _ => 0) == seq(s.currentByte, _ => 0);
    m.Record(first);
  }
}
