/** Uploads in chunks: where a chunk is written, what is recorded of it, and when the file gets its name.

    Opening, truncating and writing the file are parameters of the steps: they work, or they fail. */
module Upload {

  const MAX_CHUNKS := 16_777_216
  const TWO_63 := 0x8000_0000_0000_0000

  /** An integer of 64 bits, as additions wrap it. */
  function Wrapped(x: int): int {
    (x + TWO_63) % (2 * TWO_63) - TWO_63
  }

  predicate IsInt64(x: int) {
    -TWO_63 <= x < TWO_63
  }

  /** A chunk and what its request says of the whole file. */
  datatype Chunk = Chunk(number: int, size: int, total: int, fileSize: int)

  predicate IsOf64Bits(c: Chunk) {
    IsInt64(c.number) && IsInt64(c.size) && IsInt64(c.total) && IsInt64(c.fileSize)
  }

  predicate IsRefused(c: Chunk) {
    || c.total < 1 || c.total > MAX_CHUNKS || c.number < 1 || c.number > c.total || c.size < 1 || c.fileSize < 0
    || c.total > Wrapped(c.fileSize / c.size + 1)
  }

  /** Where the chunk is written, as it is computed. */
  function Offset(c: Chunk): int {
    Wrapped(Wrapped(c.number - 1) * c.size)
  }

  lemma {:induction false} ProductFits(n: int, size: int, fileSize: int)
    requires size >= 1 && fileSize >= 0 && 0 <= n <= fileSize / size
    ensures 0 <= n * size <= fileSize
  {
    assert n * size <= (fileSize / size) * size;
  }

  lemma {:induction false} Wraps(x: int)
    ensures IsInt64(x) ==> Wrapped(x) == x
    ensures x == TWO_63 ==> Wrapped(x) == -TWO_63
  {
  }

  lemma {:induction false} SmallerQuotient(fileSize: int, size: int)
    requires 0 <= fileSize < TWO_63 && size >= 1
    ensures 0 <= fileSize / size < TWO_63 && (fileSize / size == TWO_63 - 1 <==> size == 1 && fileSize == TWO_63 - 1)
  {
    if size >= 2 {
      assert fileSize / size <= fileSize / 2;
    }
  }

  /** A chunk that is taken begins within the file, and nothing overflows. */
  lemma {:induction false} ChunkFits(c: Chunk)
    requires IsOf64Bits(c) && !IsRefused(c)
    ensures Offset(c) == (c.number - 1) * c.size && 0 <= Offset(c) <= c.fileSize
  {
    SmallerQuotient(c.fileSize, c.size);
    var quotient := c.fileSize / c.size;
    Wraps(quotient + 1);
    ProductFits(c.number - 1, c.size, c.fileSize);
    Wraps(c.number - 1);
    Wraps((c.number - 1) * c.size);
  }

  /** The count of chunks that a size allows is exact but for one size: a file as large as can be, in bytes. */
  lemma {:induction false} CountIsExact(c: Chunk)
    requires IsOf64Bits(c) && c.size >= 1 && c.fileSize >= 0
    ensures Wrapped(c.fileSize / c.size + 1) == c.fileSize / c.size + 1 <==> !(c.size == 1 && c.fileSize == TWO_63 - 1)
  {
    SmallerQuotient(c.fileSize, c.size);
    Wraps(c.fileSize / c.size + 1);
  }

  /** Which chunks are taken: those whose number is one of at most 16 million, of a size of their own, and no more of them
      than the size of the file allows. For a file as large as can be, in single bytes, that bound wraps, and none is. */
  lemma {:induction false} AcceptedExactly(c: Chunk)
    requires IsOf64Bits(c)
    ensures !IsRefused(c) <==>
      && 1 <= c.number <= c.total <= 16777216 && c.size >= 1 && c.fileSize >= 0 && c.total <= c.fileSize / c.size + 1
      && !(c.size == 1 && c.fileSize == 9223372036854775807)
  {
    if c.size >= 1 && c.fileSize >= 0 {
      CountIsExact(c);
      SmallerQuotient(c.fileSize, c.size);
      Wraps(c.fileSize / c.size + 1);
    }
  }

  lemma {:induction false} Distributes(a: int, k: int)
    ensures a * k + k == (a + 1) * k
  {
  }

  lemma {:induction false} Monotone(a: int, b: int, k: int)
    requires a <= b && k >= 0
    ensures a * k <= b * k
  {
  }

  /** Two chunks of one file do not overlap. */
  lemma {:induction false} ChunksAreApart(c: Chunk, d: Chunk)
    requires IsOf64Bits(c) && IsOf64Bits(d) && !IsRefused(c) && !IsRefused(d) && c.size == d.size && c.number < d.number
    ensures Offset(c) + c.size <= Offset(d)
  {
    ChunkFits(c);
    ChunkFits(d);
    Monotone(c.number, d.number - 1, c.size);
    Distributes(c.number - 1, c.size);
  }

  // ---------------------------------------------------------------- what is recorded

  function Marked(uploaded: seq<bool>): nat {
    if uploaded == [] then 0 else Marked(uploaded[..|uploaded| - 1]) + if uploaded[|uploaded| - 1] then 1 else 0
  }

  lemma {:induction false} MarkedOfNone(uploaded: seq<bool>)
    requires forall i :: 0 <= i < |uploaded| ==> !uploaded[i]
    ensures Marked(uploaded) == 0
  {
    if uploaded != [] {
      MarkedOfNone(uploaded[..|uploaded| - 1]);
    }
  }

  lemma {:induction false} MarkingOne(uploaded: seq<bool>, i: nat)
    requires i < |uploaded| && !uploaded[i]
    ensures Marked(uploaded[i := true]) == Marked(uploaded) + 1
  {
    var n := |uploaded| - 1;
    if i < n {
      assert uploaded[i := true][..n] == uploaded[..n][i := true];
      MarkingOne(uploaded[..n], i);
    } else {
      assert uploaded[i := true][..n] == uploaded[..n];
    }
  }

  lemma {:induction false} AllAreMarked(uploaded: seq<bool>)
    ensures Marked(uploaded) <= |uploaded|
    ensures Marked(uploaded) == |uploaded| <==> forall i :: 0 <= i < |uploaded| ==> uploaded[i]
  {
    if uploaded != [] {
      var n := |uploaded| - 1;
      AllAreMarked(uploaded[..n]);
      assert forall i :: 0 <= i < n ==> uploaded[..n][i] == uploaded[i];
    }
  }

  /** What is known of an upload: which chunks were written, and how many. */
  class FileInfo {
    const uploaded: array<bool>
    var count: int

    ghost predicate Valid()
      reads this, uploaded
    {
      count == Marked(uploaded[..])
    }

    constructor (total: nat)
      ensures Valid() && fresh(uploaded) && uploaded.Length == total && count == 0
      ensures forall i :: 0 <= i < total ==> !uploaded[i]
    {
      uploaded := new bool[total](_ => false);
      count := 0;
      new;
      MarkedOfNone(uploaded[..]);
    }

    /** The second locked section of a chunk, once its write has returned: whether the file gets its name now. */
    method Finish(number: int) returns (complete: bool)
      requires Valid() && 1 <= number <= uploaded.Length
      modifies this, uploaded
      ensures Valid() && uploaded[..] == old(uploaded[..])[number - 1 := true]
      ensures complete <==> forall i :: 0 <= i < uploaded.Length ==> uploaded[i]
    {
      if !uploaded[number - 1] {
        MarkingOne(uploaded[..], number - 1);
        assert uploaded[..][number - 1 := true] == old(uploaded[..])[number - 1 := true];
        count := count + 1;
        uploaded[number - 1] := true;
        assert uploaded[..] == old(uploaded[..])[number - 1 := true];
      } else {
        assert uploaded[..] == old(uploaded[..])[number - 1 := true];
      }
      complete := count == uploaded.Length;
      AllAreMarked(uploaded[..]);
      assert forall i :: 0 <= i < uploaded.Length ==> uploaded[..][i] == uploaded[i];
    }
  }

  datatype Name = Name(text: string)

  datatype Answer = InvalidChunk | Unopened | Begun

  class UploadService {
    var status: map<Name, FileInfo>

    constructor ()
      ensures status == map[]
    {
      status := map[];
    }

    /** The first locked section of a chunk: the record of its upload, made for the first chunk that comes. */
    method Begin(id: Name, c: Chunk, opens: bool, truncates: bool) returns (answer: Answer, info: FileInfo?)
      requires IsOf64Bits(c)
      modifies this
      ensures answer.Begun? <==> info != null
      ensures answer.InvalidChunk? <==> IsRefused(c) || (id in old(status) && old(status)[id].uploaded.Length != c.total)
      ensures answer.Unopened? <==> !answer.InvalidChunk? && (!opens || (id !in old(status) && !truncates))
      ensures answer.Begun? && id in old(status) ==> info == old(status)[id] && status == old(status)
      ensures answer.Begun? && id !in old(status) ==>
        fresh(info) && fresh(info.uploaded) && info.Valid() && info.count == 0 && status == old(status)[id := info]
      ensures answer.Begun? ==> info.uploaded.Length == c.total && 1 <= c.number <= info.uploaded.Length
      ensures !answer.Begun? ==> status == old(status)
    {
      info := null;
      if IsRefused(c) {
        return InvalidChunk, info;
      }
      if id in status && status[id].uploaded.Length != c.total {
        return InvalidChunk, info;
      }
      if !opens {
        return Unopened, info;
      }
      if id !in status {
        if !truncates {
          return Unopened, info;
        }
        info := new FileInfo(c.total);
        status := status[id := info];
      } else {
        info := status[id];
      }
      answer := Begun;
    }

    /** The second one: the record goes once the file has its name. */
    method End(id: Name, info: FileInfo, number: int) returns (renamed: bool)
      requires info.Valid() && 1 <= number <= info.uploaded.Length
      modifies this, info, info.uploaded
      ensures info.Valid() && info.uploaded[..] == old(info.uploaded[..])[number - 1 := true]
      ensures renamed <==> forall i :: 0 <= i < info.uploaded.Length ==> info.uploaded[i]
      ensures status == if renamed then old(status) - {id} else old(status)
    {
      renamed := info.Finish(number);
      if renamed {
        status := status - {id};
      }
    }

    /** Whether a chunk is known to be there. */
    method TestChunk(id: Name, number: int) returns (isThere: bool)
      ensures isThere <==> id in status && 1 <= number <= status[id].uploaded.Length && status[id].uploaded[number - 1]
    {
      if id !in status {
        return false;
      }
      var info := status[id];
      if number < 1 || number > info.uploaded.Length {
        return false;
      }
      return info.uploaded[number - 1];
    }
  }

  // ---------------------------------------------------------------- every interleaving

  /** A record of an upload, and the uploads of one name one after the other: `infos` are all its records ever, and
      `current` the one that is there. */
  datatype Info = Info(uploaded: seq<bool>, count: int)

  /** A request that carries a chunk: it is writing to the file, or its write has returned. */
  datatype Request = Writing(info: nat, number: nat) | Wrote(info: nat, number: nat)

  /** `written` are the chunks, by record, whose write has returned, and `renamed` the records whose file was given
      its name, with the chunks that were written by then. */
  datatype System = System(infos: seq<Info>, current: int, requests: map<nat, Request>, written: set<(nat, nat)>,
                           renamed: seq<(nat, set<(nat, nat)>)>)

  datatype Step =
    | Arrive(id: nat, chunk: Chunk, opens: bool, truncates: bool)
    | WriteReturns(id: nat)
    | WriteFails(id: nat)
    | Record(id: nat)

  predicate Enabled(s: System, step: Step) {
    match step
    case Arrive(id, chunk, _, _) => id !in s.requests && IsOf64Bits(chunk)
    case WriteReturns(id) => id in s.requests && s.requests[id].Writing?
    case WriteFails(id) => id in s.requests && s.requests[id].Writing?
    case Record(id) =>
      id in s.requests && s.requests[id].Wrote? && s.requests[id].info < |s.infos|
      && 1 <= s.requests[id].number <= |s.infos[s.requests[id].info].uploaded|
  }

  function MarkedInfo(info: Info, number: nat): Info
    requires 1 <= number <= |info.uploaded|
  {
    if info.uploaded[number - 1] then info else Info(info.uploaded[number - 1 := true], info.count + 1)
  }

  function Apply(s: System, step: Step): System
    requires Enabled(s, step)
  {
    match step
    case Arrive(id, c, opens, truncates) =>
      if IsRefused(c) || !opens then s
      else if 0 <= s.current < |s.infos| then
        if |s.infos[s.current].uploaded| != c.total then s
        else s.(requests := s.requests[id := Writing(s.current, c.number)])
      else if !truncates then s
      else s.(infos := s.infos + [Info(seq(c.total, _ => false), 0)], current := |s.infos|,
              requests := s.requests[id := Writing(|s.infos|, c.number)])
    case WriteReturns(id) =>
      var r := s.requests[id];
      s.(requests := s.requests[id := Wrote(r.info, r.number)], written := s.written + {(r.info, r.number)})
    case WriteFails(id) => s.(requests := s.requests - {id})
    case Record(id) =>
      var r := s.requests[id];
      var info := MarkedInfo(s.infos[r.info], r.number);
      var t := s.(infos := s.infos[r.info := info], requests := s.requests - {id});
      if info.count == |info.uploaded| then t.(current := -1, renamed := s.renamed + [(r.info, s.written)]) else t
  }

  ghost predicate Leads(s: System, t: System) {
    exists step :: Enabled(s, step) && t == Apply(s, step)
  }

  ghost predicate LeadsAt(run: seq<System>, i: nat) {
    i + 1 < |run| && Leads(run[i], run[i + 1])
  }

  ghost predicate IsRun(run: seq<System>) {
    forall i :: 0 <= i < |run| - 1 ==> LeadsAt(run, i)
  }

  predicate IsInit(s: System) {
    s == System([], -1, map[], {}, [])
  }

  ghost predicate RequestsHold(s: System) {
    forall id :: id in s.requests ==>
      var r := s.requests[id];
      && r.info < |s.infos| && 1 <= r.number <= |s.infos[r.info].uploaded|
      && (r.Wrote? ==> (r.info, r.number) in s.written)
  }

  /** The counter is the number of chunks that are marked, and every one of those was written. */
  ghost predicate InfoHolds(s: System, i: nat)
    requires i < |s.infos|
  {
    var info := s.infos[i];
    info.count == Marked(info.uploaded) && forall n :: 1 <= n <= |info.uploaded| && info.uploaded[n - 1] ==> (i, n) in s.written
  }

  /** A file was given its name when all its chunks had been written. */
  ghost predicate RenamedWhole(s: System) {
    forall k :: 0 <= k < |s.renamed| ==>
      s.renamed[k].0 < |s.infos| && forall n :: 1 <= n <= |s.infos[s.renamed[k].0].uploaded| ==> (s.renamed[k].0, n) in s.renamed[k].1
  }

  ghost predicate Inv(s: System) {
    && -1 <= s.current < |s.infos| && RequestsHold(s) && RenamedWhole(s)
    && forall i :: 0 <= i < |s.infos| ==> InfoHolds(s, i)
  }

  lemma {:induction false} ArriveKeepsInv(s: System, step: Step)
    requires Inv(s) && Enabled(s, step) && step.Arrive?
    ensures Inv(Apply(s, step))
  {
    var t := Apply(s, step);
    if |t.infos| > |s.infos| {
      MarkedOfNone(t.infos[|s.infos|].uploaded);
    }
    forall i | 0 <= i < |t.infos|
      ensures InfoHolds(t, i)
    {
      if i < |s.infos| {
        assert InfoHolds(s, i);
      }
    }
  }

  lemma {:induction false} WriteKeepsInv(s: System, step: Step)
    requires Inv(s) && Enabled(s, step) && (step.WriteReturns? || step.WriteFails?)
    ensures Inv(Apply(s, step))
  {
    var t := Apply(s, step);
    forall i | 0 <= i < |t.infos|
      ensures InfoHolds(t, i)
    {
      assert InfoHolds(s, i);
    }
  }

  lemma {:induction false} RecordKeepsInfo(s: System, i: nat, number: nat)
    requires i < |s.infos| && InfoHolds(s, i) && 1 <= number <= |s.infos[i].uploaded| && (i, number) in s.written
    ensures
      var info := MarkedInfo(s.infos[i], number);
      && |info.uploaded| == |s.infos[i].uploaded| && InfoHolds(s.(infos := s.infos[i := info]), i)
      && (info.count == |info.uploaded| ==> forall n :: 1 <= n <= |info.uploaded| ==> (i, n) in s.written)
  {
    var info := MarkedInfo(s.infos[i], number);
    if !s.infos[i].uploaded[number - 1] {
      MarkingOne(s.infos[i].uploaded, number - 1);
    }
    AllAreMarked(info.uploaded);
  }

  lemma {:induction false} RecordKeepsInv(s: System, step: Step)
    requires Inv(s) && Enabled(s, step) && step.Record?
    ensures Inv(Apply(s, step))
  {
    var t, r := Apply(s, step), s.requests[step.id];
    RecordKeepsInfo(s, r.info, r.number);
    forall i | 0 <= i < |t.infos|
      ensures InfoHolds(t, i)
    {
      assert InfoHolds(s, i);
    }
  }

  /** What the record of a chunk comes to: the chunk is marked and no other is changed, and the file gets its name, and
      its record goes, exactly when every other chunk was marked before. */
  lemma {:induction false} NamedExactly(s: System, step: Step)
    requires Inv(s) && Enabled(s, step) && step.Record?
    ensures
      var t, r := Apply(s, step), s.requests[step.id];
      var before := s.infos[r.info].uploaded;
      var whole := forall i :: 0 <= i < |before| && i != r.number - 1 ==> before[i];
      && |t.infos| == |s.infos| && t.infos[r.info].uploaded == before[r.number - 1 := true]
      && (forall i :: 0 <= i < |s.infos| && i != r.info ==> t.infos[i] == s.infos[i])
      && t.renamed == (if whole then s.renamed + [(r.info, s.written)] else s.renamed)
      && t.current == (if whole then -1 else s.current)
  {
    var t, r := Apply(s, step), s.requests[step.id];
    RecordKeepsInfo(s, r.info, r.number);
    assert InfoHolds(s, r.info);
    if !s.infos[r.info].uploaded[r.number - 1] {
      MarkingOne(s.infos[r.info].uploaded, r.number - 1);
    }
    var before, after := s.infos[r.info].uploaded, t.infos[r.info].uploaded;
    AllAreMarked(after);
    assert after == before[r.number - 1 := true] by {
      if before[r.number - 1] {
        assert before[r.number - 1 := true] == before;
      }
    }
    assert (forall i :: 0 <= i < |after| ==> after[i]) <==> forall i :: 0 <= i < |before| && i != r.number - 1 ==> before[i];
  }

  /** What becomes of a chunk that arrives: it is written to the upload of its name that is there, when it is one of as
      many chunks, or to a new one that has none yet; or nothing is changed. */
  lemma {:induction false} ArrivesExactly(s: System, step: Step)
    requires Inv(s) && Enabled(s, step) && step.Arrive?
    ensures
      var c, t := step.chunk, Apply(s, step);
      var isThere := s.current >= 0;
      var taken := !IsRefused(c) && step.opens && (if isThere then |s.infos[s.current].uploaded| == c.total else step.truncates);
      && (!taken ==> t == s)
      && (taken ==> t.requests == s.requests[step.id := Writing(t.current, c.number)] && t.written == s.written)
      && (taken && isThere ==> t.current == s.current && t.infos == s.infos)
      && (taken && !isThere ==>
            && t.current == |s.infos| && |t.infos| == |s.infos| + 1 && t.infos[..|s.infos|] == s.infos
            && |t.infos[t.current].uploaded| == c.total && t.infos[t.current].count == 0
            && forall n :: 0 <= n < c.total ==> !t.infos[t.current].uploaded[n])
  {
  }

  lemma {:induction false} StepKeepsInv(s: System, t: System)
    requires Inv(s) && Leads(s, t)
    ensures Inv(t)
  {
    var step :| Enabled(s, step) && t == Apply(s, step);
    match step
    case Arrive(_, _, _, _) => ArriveKeepsInv(s, step);
    case WriteReturns(_) => WriteKeepsInv(s, step);
    case WriteFails(_) => WriteKeepsInv(s, step);
    case Record(_) => RecordKeepsInv(s, step);
  }

  lemma {:induction false} RunKeepsInv(run: seq<System>, i: nat)
    requires i < |run| && IsRun(run) && IsInit(run[0])
    ensures Inv(run[i])
  {
    if i > 0 {
      RunKeepsInv(run, i - 1);
      assert LeadsAt(run, i - 1);
      StepKeepsInv(run[i - 1], run[i]);
    }
  }

  /** In every interleaving of the requests, chunks sent twice and writes that fail among them, the counter of every
      upload of a name is the number of its chunks that are marked; and a file is given its name only when the
      write of each of its chunks has returned. */
  lemma {:induction false} NamedWhenWhole(run: seq<System>, i: nat, info: nat)
    requires i < |run| && IsRun(run) && IsInit(run[0])
    ensures info < |run[i].infos| ==> run[i].infos[info].count == Marked(run[i].infos[info].uploaded)
    ensures RenamedWhole(run[i])
  {
    RunKeepsInv(run, i);
    if info < |run[i].infos| {
      assert InfoHolds(run[i], info);
    }
  }
}
