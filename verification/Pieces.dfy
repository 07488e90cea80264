/** A bag's content cut into pieces, and the writer that puts a file's pieces into a pipe. */
module Pieces {
  import opened Wrappers

  type Byte = bv8

  const PIECE_NUMBERS: nat := 0x1_0000_0000

  /** Where a file lies in its bag, in pieces and offsets into pieces. */
  datatype FileInfo = FileInfo(fromPiece: nat, fromPieceOffset: nat, toPiece: nat, toPieceOffset: nat, size: nat)

  /** A bag's content and the size of its pieces; the last piece may be shorter. */
  datatype Content = Content(data: seq<Byte>, pieceSize: nat)

  function Min(a: nat, b: nat): nat {
    if a < b then a else b
  }

  /** Where a piece begins: one piece size after the piece before it, inside the bag. */
  function Offset(c: Content, p: nat): (offset: nat)
    ensures offset <= |c.data|
  {
    if p == 0 then 0 else Min(Offset(c, p - 1) + c.pieceSize, |c.data|)
  }

  lemma {:induction false} OffsetIsProduct(c: Content, p: nat)
    ensures Offset(c, p) == Min(p * c.pieceSize, |c.data|)
  {
    if p > 0 {
      OffsetIsProduct(c, p - 1);
      assert p * c.pieceSize == (p - 1) * c.pieceSize + c.pieceSize;
    }
  }

  function Piece(c: Content, p: nat): seq<Byte> {
    c.data[Offset(c, p)..Offset(c, p + 1)]
  }

  lemma {:induction false} OffsetsSorted(c: Content, p: nat, q: nat)
    requires p <= q
    ensures Offset(c, p) <= Offset(c, q)
    decreases q - p
  {
    if p < q {
      OffsetsSorted(c, p + 1, q);
    }
  }

  function Start(c: Content, f: FileInfo): nat {
    Offset(c, f.fromPiece) + f.fromPieceOffset
  }

  function End(c: Content, f: FileInfo): nat {
    Offset(c, f.toPiece) + f.toPieceOffset
  }

  /** What the storage library promises of a file's offsets: they lie in their pieces, and the
      file is the range between them. */
  predicate Located(c: Content, f: FileInfo) {
    && f.fromPiece <= f.toPiece < PIECE_NUMBERS
    && f.fromPieceOffset <= |Piece(c, f.fromPiece)| && f.toPieceOffset <= |Piece(c, f.toPiece)|
    && Start(c, f) + f.size == End(c, f)
  }

  ghost function File(c: Content, f: FileInfo): (file: seq<Byte>)
    requires Located(c, f)
    ensures |file| == f.size
  {
    c.data[Start(c, f)..End(c, f)]
  }

  // ---- The pipe --------------------------------------------------------------------------------------

  /** How a pipe was closed; `Clean` reads as the end of the file. */
  datatype Closing = Clean | Cancelled | FetchFailed | WriteFailed

  class Pipe {
    var written: seq<Byte>
    var closing: Option<Closing>

    constructor ()
      ensures written == [] && closing == None
    {
      written := [];
      closing := None;
    }

    /** The reader takes `taken` bytes; a write is complete when it has taken them all. */
    method Write(part: seq<Byte>, taken: nat) returns (ok: bool)
      requires taken <= |part|
      modifies this
      ensures ok <==> taken == |part|
      ensures written == old(written) + part[..taken] && closing == old(closing)
    {
      written := written + part[..taken];
      ok := taken == |part|;
    }

    /** Only the first closing counts. */
    method Close(how: Closing)
      modifies this
      ensures written == old(written)
      ensures closing == if old(closing) == None then Some(how) else old(closing)
    {
      if closing == None {
        closing := Some(how);
      }
    }
  }

  /** What happens at a piece: the request may be over, the piece may not come, the reader may
      take its part or leave in the middle of it. */
  datatype Fate =
    | RequestOver
    | NoPiece
    | Taken
    | CutOff(taken: nat)

  /** The part of piece `p` that belongs to the file. */
  function Part(c: Content, f: FileInfo, p: nat): seq<Byte>
    requires Located(c, f)
  {
    var part := if p == f.toPiece then Piece(c, p)[..f.toPieceOffset] else Piece(c, p);
    if p == f.fromPiece then part[f.fromPieceOffset..] else part
  }

  /** Where the file stands before piece `p` is written. */
  ghost function Reached(c: Content, f: FileInfo, p: nat): nat {
    if p <= f.fromPiece then Start(c, f)
    else if p <= f.toPiece then Offset(c, p)
    else End(c, f)
  }

  /** The pieces of a file ascend through it. */
  lemma ReachedAscends(c: Content, f: FileInfo, p: nat)
    requires Located(c, f) && f.fromPiece <= p <= f.toPiece
    ensures Start(c, f) <= Reached(c, f, p) <= Reached(c, f, p + 1) <= End(c, f) <= |c.data|
  {
    if f.fromPiece < p {
      OffsetsSorted(c, f.fromPiece + 1, p);
    }
    if p < f.toPiece {
      OffsetsSorted(c, p + 1, f.toPiece);
    }
  }

  lemma SliceOfSlice(data: seq<Byte>, a: nat, b: nat, from: nat, to: nat)
    requires a <= b <= |data| && from <= to <= b - a
    ensures data[a..b][..to][from..] == data[a + from..a + to]
  {
    var piece := data[a..b];
    assert forall i | 0 <= i < to - from :: piece[..to][from..][i] == piece[from + i] == data[a + from..a + to][i];
  }

  /** Each part continues the file where the parts before it ended. */
  lemma {:induction false} PartContinues(c: Content, f: FileInfo, p: nat)
    requires Located(c, f) && f.fromPiece <= p <= f.toPiece
    ensures Reached(c, f, p) <= Reached(c, f, p + 1) <= |c.data|
    ensures Part(c, f, p) == c.data[Reached(c, f, p)..Reached(c, f, p + 1)]
  {
    ReachedAscends(c, f, p);
    var from := if p == f.fromPiece then f.fromPieceOffset else 0;
    var to := if p == f.toPiece then f.toPieceOffset else |Piece(c, p)|;
    SliceOfSlice(c.data, Offset(c, p), Offset(c, p + 1), from, to);
    assert Part(c, f, p) == Piece(c, p)[..to][from..];
  }

  /** What is in the pipe when the pieces before `p` are written. */
  ghost function Before(c: Content, f: FileInfo, p: nat): seq<Byte> {
    if Start(c, f) <= Reached(c, f, p) <= |c.data| then c.data[Start(c, f)..Reached(c, f, p)] else []
  }

  lemma SliceGrows(data: seq<Byte>, a: nat, b: nat, d: nat, e: nat)
    requires a <= b <= d <= e <= |data|
    ensures data[a..b] + data[b..d] == data[a..d] && data[a..d] <= data[a..e]
  {
  }

  lemma PartExtends(c: Content, f: FileInfo, p: nat)
    requires Located(c, f) && f.fromPiece <= p <= f.toPiece
    ensures Before(c, f, p) + Part(c, f, p) == Before(c, f, p + 1) <= File(c, f)
  {
    ReachedAscends(c, f, p);
    PartContinues(c, f, p);
    SliceGrows(c.data, Start(c, f), Reached(c, f, p), Reached(c, f, p + 1), End(c, f));
  }

  lemma FirstAndLast(c: Content, f: FileInfo)
    requires Located(c, f)
    ensures Before(c, f, f.fromPiece) == [] && Before(c, f, f.toPiece + 1) == File(c, f)
  {
    ReachedAscends(c, f, f.fromPiece);
  }

  lemma CutOfPrefix(a: seq<Byte>, b: seq<Byte>, whole: seq<Byte>, n: nat)
    requires a + b <= whole && n <= |b|
    ensures a + b[..n] <= whole
  {
    assert a + b[..n] == (a + b)[..|a| + n];
  }

  /** A reader that leaves in the middle of a part has not taken all of it. */
  ghost predicate Possible(c: Content, f: FileInfo, fates: seq<Fate>)
    requires Located(c, f)
  {
    && |fates| == f.toPiece - f.fromPiece + 1
    && forall k | 0 <= k < |fates| && fates[k].CutOff? :: fates[k].taken < |Part(c, f, f.fromPiece + k)|
  }

  ghost predicate AllTaken(fates: seq<Fate>) {
    forall k | 0 <= k < |fates| :: fates[k].Taken?
  }

  /** The bytes of piece `p` that get through. */
  ghost function Through(c: Content, f: FileInfo, p: nat, fate: Fate): seq<Byte>
    requires Located(c, f) && (fate.CutOff? ==> fate.taken <= |Part(c, f, p)|)
  {
    match fate
    case RequestOver => []
    case NoPiece => []
    case Taken => Part(c, f, p)
    case CutOff(taken) => Part(c, f, p)[..taken]
  }

  ghost function ClosingOf(fate: Fate): Option<Closing> {
    match fate
    case RequestOver => Some(Cancelled)
    case NoPiece => Some(FetchFailed)
    case Taken => None
    case CutOff(_) => Some(WriteFailed)
  }

  /** One turn of the writer's loop: `go` says whether it goes on. */
  method WritePiece(c: Content, f: FileInfo, p: nat, fate: Fate, pipe: Pipe) returns (go: bool)
    requires Located(c, f) && pipe.closing == None
    requires fate.CutOff? ==> fate.taken < |Part(c, f, p)|
    modifies pipe
    ensures go <==> fate.Taken?
    ensures match fate
            case RequestOver => pipe.written == old(pipe.written) && pipe.closing == Some(Cancelled)
            case NoPiece => pipe.written == old(pipe.written) && pipe.closing == Some(FetchFailed)
            case Taken => pipe.written == old(pipe.written) + Part(c, f, p) && pipe.closing == None
            case CutOff(n) => pipe.written == old(pipe.written) + Part(c, f, p)[..n] && pipe.closing == Some(WriteFailed)
  {
    go := false;
    if fate.RequestOver? {
      pipe.Close(Cancelled);
    } else if fate.NoPiece? {
      pipe.Close(FetchFailed);
    } else {
      var part := Part(c, f, p);
      go := true;
      if part != [] {
        go := pipe.Write(part, if fate.Taken? then |part| else fate.taken);
        if !go {
          pipe.Close(WriteFailed);
        }
      }
    }
  }

  /** What the writer leaves behind when the first `turns` pieces were taken: the whole file if
      those are all; otherwise the bytes up to the next piece, what gets through of it, and a
      closing that says why. */
  ghost predicate Outcome(c: Content, f: FileInfo, fates: seq<Fate>, turns: nat, written: seq<Byte>, closing: Option<Closing>)
    requires Located(c, f) && Possible(c, f, fates)
  {
    && turns <= |fates| && AllTaken(fates[..turns])
    && if turns == |fates| then written == File(c, f) && closing == Some(Clean)
       else
         && !fates[turns].Taken?
         && written == Before(c, f, f.fromPiece + turns) + Through(c, f, f.fromPiece + turns, fates[turns])
         && closing == ClosingOf(fates[turns])
  }

  /** In short: a beginning of the file, closed cleanly exactly when every piece is taken, and
      then it is the whole file. */
  lemma {:induction false} OutcomeIsBeginning(c: Content, f: FileInfo, fates: seq<Fate>, turns: nat, written: seq<Byte>,
                                              closing: Option<Closing>)
    requires Located(c, f) && Possible(c, f, fates) && Outcome(c, f, fates, turns, written, closing)
    ensures written <= File(c, f) && closing.Some?
    ensures closing == Some(Clean) <==> AllTaken(fates)
    ensures closing == Some(Clean) ==> written == File(c, f)
  {
    if turns == |fates| {
      assert fates[..turns] == fates;
    } else {
      BrokenOffIsBeginning(c, f, f.fromPiece + turns, fates[turns]);
    }
  }

  /** The writer stopped at piece number `turns` of the file: why, and after how many bytes. */
  ghost predicate StoppedAt(c: Content, f: FileInfo, fates: seq<Fate>, turns: nat, bytes: nat, closing: Closing) {
    && turns < |fates| && AllTaken(fates[..turns])
    && var before := if turns == 0 then 0 else Offset(c, f.fromPiece + turns) - Start(c, f);
       match fates[turns]
       case RequestOver => bytes == before && closing == Cancelled
       case NoPiece => bytes == before && closing == FetchFailed
       case CutOff(taken) => bytes == before + taken && closing == WriteFailed
       case Taken => false
  }

  lemma {:induction false} OutcomeStops(c: Content, f: FileInfo, fates: seq<Fate>, turns: nat, written: seq<Byte>,
                                        closing: Option<Closing>)
    requires Located(c, f) && Possible(c, f, fates) && Outcome(c, f, fates, turns, written, closing)
    requires !AllTaken(fates)
    ensures closing.Some? && StoppedAt(c, f, fates, turns, |written|, closing.value)
  {
    assert fates[..|fates|] == fates;
    StoppedAfter(c, f, f.fromPiece + turns, fates[turns]);
  }

  lemma StoppedAfter(c: Content, f: FileInfo, p: nat, fate: Fate)
    requires Located(c, f) && f.fromPiece <= p <= f.toPiece && (fate.CutOff? ==> fate.taken <= |Part(c, f, p)|)
    ensures |Before(c, f, p)| == if p == f.fromPiece then 0 else Offset(c, p) - Start(c, f)
    ensures !fate.Taken? ==> |Through(c, f, p, fate)| == if fate.CutOff? then fate.taken else 0
  {
    ReachedAscends(c, f, p);
  }

  lemma BrokenOffIsBeginning(c: Content, f: FileInfo, p: nat, fate: Fate)
    requires Located(c, f) && f.fromPiece <= p <= f.toPiece && (fate.CutOff? ==> fate.taken <= |Part(c, f, p)|)
    ensures Before(c, f, p) + Through(c, f, p, fate) <= File(c, f)
  {
    PartExtends(c, f, p);
    CutOfPrefix(Before(c, f, p), Part(c, f, p), File(c, f), if fate.CutOff? then fate.taken else 0);
  }

  /** The writer goroutine. Why `toPiece` may not be the last possible piece number:
      `LoopEnds`. */
  method WritePieces(c: Content, f: FileInfo, fates: seq<Fate>, pipe: Pipe) returns (ghost turns: nat)
    requires Located(c, f) && f.toPiece < PIECE_NUMBERS - 1 && Possible(c, f, fates)
    requires pipe.written == [] && pipe.closing == None
    modifies pipe
    ensures Outcome(c, f, fates, turns, pipe.written, pipe.closing)
  {
    FirstAndLast(c, f);
    var p := f.fromPiece;
    turns := 0;
    while p <= f.toPiece
      invariant p == f.fromPiece + turns <= f.toPiece + 1
      invariant AllTaken(fates[..turns]) && pipe.written == Before(c, f, p) && pipe.closing == None
      decreases f.toPiece + 1 - p
    {
      PartExtends(c, f, p);
      var fate := fates[p - f.fromPiece];
      var go := WritePiece(c, f, p, fate, pipe);
      if !go {
        return;
      }
      assert fates[..turns + 1] == fates[..turns] + [fate];
      p := (p + 1) % PIECE_NUMBERS;
      turns := turns + 1;
    }
    pipe.Close(Clean);
  }

  /** The loop's counter after `k` turns: piece numbers are 32 bits wide. */
  function Counter(fromPiece: nat, k: nat): nat {
    (fromPiece + k) % PIECE_NUMBERS
  }

  /** The loop comes to an end exactly when the file does not reach into the last possible
      piece. */
  lemma LoopEnds(fromPiece: nat, toPiece: nat)
    requires fromPiece <= toPiece < PIECE_NUMBERS
    ensures (exists k: nat :: toPiece < Counter(fromPiece, k)) <==> toPiece < PIECE_NUMBERS - 1
  {
    if toPiece < PIECE_NUMBERS - 1 {
      assert Counter(fromPiece, toPiece + 1 - fromPiece) == toPiece + 1;
    }
  }

  /** In pieces that begin inside the bag, the range is the one the offsets spell out. */
  lemma {:induction false} RangeOfFile(c: Content, f: FileInfo)
    requires Located(c, f) && f.toPiece * c.pieceSize <= |c.data|
    ensures Start(c, f) == f.fromPiece * c.pieceSize + f.fromPieceOffset
    ensures End(c, f) == f.toPiece * c.pieceSize + f.toPieceOffset
  {
    MultipliesUp(f.fromPiece, f.toPiece, c.pieceSize);
    OffsetIsProduct(c, f.fromPiece);
    OffsetIsProduct(c, f.toPiece);
  }

  lemma MultipliesUp(a: nat, b: nat, n: nat)
    requires a <= b
    ensures a * n <= b * n
  {
  }
}
