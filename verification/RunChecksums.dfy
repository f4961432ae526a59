/** The sums of the files that the unit of an upgrade runs: how they are written, and when a folder is taken for the
    one that was written.

    The hash is a parameter, `hash`, and is taken to tell two contents apart. It is of the first part of a file, as
    much as may be read of it. */
module RunChecksums {
  import opened TextLines

  const MAX_SUMS := 65536
  const MAX_FILE := 1_048_576

  datatype Option<T> = None | Some(value: T)

  /** The files that sums are of: the driver, the name of the backup folder, and the blocks. */
  datatype Name = Driver | BkPath | Block(id: Text)

  datatype File = Regular(content: Text) | NotRegular

  /** A run folder: its files, what else its folder of blocks holds, and its sums. */
  datatype Folder = Folder(files: map<Name, File>, others: set<Text>, sums: Option<Text>)

  type Hash = Text -> Text

  // ---------------------------------------------------------------- one line

  predicate IsHex(c: char) {
    '0' <= c <= '9' || 'a' <= c <= 'f'
  }

  predicate IsSum(s: Text) {
    |s| == 64 && forall i :: 0 <= i < |s| ==> IsHex(s[i])
  }

  predicate IsId(s: Text) {
    1 <= |s| <= 16 && forall i :: 0 <= i < |s| ==> 'a' <= s[i] <= 'z'
  }

  function NameText(n: Name): Text {
    match n
    case Driver => "driver.sh"
    case BkPath => "bk-path"
    case Block(id) => "blocks/" + id + ".sh"
  }

  function ParsedName(s: Text): Option<Name> {
    if s == "driver.sh" then Some(Driver)
    else if s == "bk-path" then Some(BkPath)
    else if |s| >= 10 && s[..7] == "blocks/" && s[|s| - 3..] == ".sh" && IsId(s[7..|s| - 3]) then Some(Block(s[7..|s| - 3]))
    else None
  }

  datatype Sum = Sum(sum: Text, name: Name)

  function LineOf(sum: Text, name: Name): Text {
    sum + "  " + NameText(name)
  }

  function ParsedLine(line: Text): Option<Sum> {
    if |line| >= 66 && IsSum(line[..64]) && line[64..66] == "  " && ParsedName(line[66..]).Some?
    then Some(Sum(line[..64], ParsedName(line[66..]).value))
    else None
  }

  predicate IsName(n: Name) {
    n.Block? ==> IsId(n.id)
  }

  lemma {:induction false} ParsesName(n: Name)
    requires IsName(n)
    ensures ParsedName(NameText(n)) == Some(n)
  {
  }

  lemma {:induction false} ParsesLine(sum: Text, name: Name)
    requires IsSum(sum) && IsName(name)
    ensures ParsedLine(LineOf(sum, name)) == Some(Sum(sum, name))
  {
    var line := LineOf(sum, name);
    assert line[..64] == sum && line[64..66] == "  " && line[66..] == NameText(name);
    ParsesName(name);
  }

  /** A line is read as a sum and a name exactly when it is the one of that sum, 64 digits, and of the path of a file of a
      run, with two spaces between them. */
  lemma {:induction false} LineReadsExactly(line: Text, sum: Text, name: Name)
    ensures ParsedLine(line) == Some(Sum(sum, name)) <==>
      && |sum| == 64 && (forall i :: 0 <= i < 64 ==> '0' <= sum[i] <= '9' || 'a' <= sum[i] <= 'f')
      && match name
         case Driver => line == sum + "  " + "driver.sh"
         case BkPath => line == sum + "  " + "bk-path"
         case Block(id) =>
           1 <= |id| <= 16 && (forall i :: 0 <= i < |id| ==> 'a' <= id[i] <= 'z') && line == sum + "  " + ("blocks/" + id + ".sh")
  {
    if IsSum(sum) && IsName(name) && line == LineOf(sum, name) {
      ParsesLine(sum, name);
    }
    if ParsedLine(line) == Some(Sum(sum, name)) {
      NameReads(line[66..], name);
      assert line == line[..64] + line[64..66] + line[66..];
    }
  }

  lemma {:induction false} NameReads(s: Text, name: Name)
    requires ParsedName(s) == Some(name)
    ensures IsName(name) && s == NameText(name)
  {
    if name.Block? {
      assert s == s[..7] + s[7..|s| - 3] + s[|s| - 3..];
    }
  }

  lemma {:induction false} NameIsOneLine(name: Name)
    requires IsName(name)
    ensures OneLine(NameText(name))
  {
    assert OneLine("driver.sh") && OneLine("bk-path") && OneLine("blocks/") && OneLine(".sh");
    assert name.Block? ==> OneLine(name.id);
  }

  lemma {:induction false} LineIsOneLine(sum: Text, name: Name)
    requires IsSum(sum) && IsName(name)
    ensures OneLine(LineOf(sum, name))
  {
    NameIsOneLine(name);
    assert forall i :: 0 <= i < |sum| ==> IsHex(sum[i]);
    assert OneLine(sum) && OneLine("  ");
  }

  // ---------------------------------------------------------------- all lines

  /** The text between new lines. */
  function Split(s: Text): List<Text>
    decreases |s|
  {
    var n := FirstNewline(s);
    if n == |s| then Cons(s, Nil) else Cons(s[..n], Split(s[n + 1..]))
  }

  function WithoutLastNewline(s: Text): Text {
    if s != [] && s[|s| - 1] == NL then s[..|s| - 1] else s
  }

  function LinesOf(sums: Text): List<Text> {
    Split(WithoutLastNewline(sums))
  }

  lemma {:induction false} NoNewlineToFind(s: Text)
    requires OneLine(s)
    ensures FirstNewline(s) == |s|
  {
  }

  lemma {:induction false} LinesOfLine(line: Text, rest: Text)
    requires OneLine(line) && (rest == [] || rest[|rest| - 1] == NL)
    ensures LinesOf(line + [NL] + rest) == Cons(line, if rest == [] then Nil else LinesOf(rest))
  {
    var s := line + [NL] + rest;
    if rest == [] {
      assert s[..|s| - 1] == line;
      NoNewlineToFind(line);
    } else {
      var cut := rest[..|rest| - 1];
      assert s[..|s| - 1] == line + [NL] + cut;
      FirstNewlineOfLine(line, cut);
      assert (line + [NL] + cut)[..|line|] == line && (line + [NL] + cut)[|line| + 1..] == cut;
    }
  }

  lemma {:induction false} SplitWritten(lines: Lines)
    requires lines.Cons? && AllOneLine(lines)
    ensures Written(lines) != [] && Written(lines)[|Written(lines)| - 1] == NL && LinesOf(Written(lines)) == lines
  {
    if lines.tail.Cons? {
      SplitWritten(lines.tail);
    }
    LinesOfLine(lines.head, Written(lines.tail));
  }

  // ---------------------------------------------------------------- the sums of a folder

  /** As much of a file as is read. */
  function Head(content: Text): Text {
    if |content| <= MAX_FILE + 1 then content else content[..MAX_FILE + 1]
  }

  /** The files that sums are of, for the blocks a run may use. */
  function Covered(ids: seq<Text>): seq<Name> {
    [Driver, BkPath] + Blocks(ids)
  }

  function Blocks(ids: seq<Text>): seq<Name> {
    if ids == [] then [] else [Block(ids[0])] + Blocks(ids[1..])
  }

  predicate CanHash(files: map<Name, File>, name: Name) {
    name in files && files[name].Regular?
  }

  /** The lines of the sums of the files as they are, if all are there. */
  function SumLines(files: map<Name, File>, names: seq<Name>, hash: Hash): Option<Lines> {
    if names == [] then Some(Nil)
    else if !CanHash(files, names[0]) then None
    else match SumLines(files, names[1..], hash)
      case None => None
      case Some(rest) => Some(Cons(LineOf(hash(Head(files[names[0]].content)), names[0]), rest))
  }

  /** The lines name each file once, and hold the hash that it has. */
  predicate AreTrue(lines: List<Text>, files: map<Name, File>, hash: Hash) {
    lines.Cons? ==>
      && ParsedLine(lines.head).Some?
      && (var s := ParsedLine(lines.head).value;
          && s.name !in NamesOf(lines.tail)
          && CanHash(files, s.name) && hash(Head(files[s.name].content)) == s.sum)
      && AreTrue(lines.tail, files, hash)
  }

  function NamesOf(lines: List<Text>): set<Name> {
    match lines
    case Nil => {}
    case Cons(line, rest) => (if ParsedLine(line).Some? then {ParsedLine(line).value.name} else {}) + NamesOf(rest)
  }

  /** The folder of blocks holds nothing but what is covered. */
  predicate HoldsNothingElse(folder: Folder, names: set<Name>) {
    folder.others == {} && forall n :: n in folder.files && n.Block? ==> n in names
  }

  function AsSet(names: seq<Name>): set<Name> {
    set n | n in names
  }

  /** The folder is taken for the one that was written: its sums name exactly the covered files, once each, with the
      hashes they have, and its folder of blocks holds nothing else. */
  predicate IsIntact(folder: Folder, ids: seq<Text>, hash: Hash) {
    && folder.sums.Some? && |folder.sums.value| <= MAX_SUMS
    && AreTrue(LinesOf(folder.sums.value), folder.files, hash)
    && NamesOf(LinesOf(folder.sums.value)) == AsSet(Covered(ids))
    && HoldsNothingElse(folder, AsSet(Covered(ids)))
  }

  predicate AreDistinct<T(==)>(s: seq<T>) {
    forall i, j :: 0 <= i < j < |s| ==> s[i] != s[j]
  }

  /** The ids of the blocks of a kind of run: there is each once. */
  predicate AreIds(ids: seq<Text>) {
    AreDistinct(ids) && |ids| <= 100 && forall i :: 0 <= i < |ids| ==> IsId(ids[i])
  }

  predicate IsHashing(hash: Hash, files: map<Name, File>) {
    forall n :: n in files && files[n].Regular? ==> IsSum(hash(Head(files[n].content)))
  }

  // ---------------------------------------------------------------- reading them

  /** What has been read says a name that comes again, or a line that is none. */
  function Wanted(lines: List<Text>, want: map<Name, Text>): Option<map<Name, Text>> {
    match lines
    case Nil => Some(want)
    case Cons(line, rest) =>
      match ParsedLine(line)
      case None => None
      case Some(s) => if s.name in want then None else Wanted(rest, want[s.name := s.sum])
  }

  predicate HashesHold(want: map<Name, Text>, files: map<Name, File>, hash: Hash) {
    forall n :: n in want ==> CanHash(files, n) && hash(Head(files[n].content)) == want[n]
  }

  lemma {:induction false} WantedIsTrue(lines: List<Text>, want: map<Name, Text>, files: map<Name, File>, hash: Hash)
    ensures Wanted(lines, want).Some? ==>
      && Wanted(lines, want).value.Keys == want.Keys + NamesOf(lines)
      && (HashesHold(Wanted(lines, want).value, files, hash) <==> HashesHold(want, files, hash) && AreTrue(lines, files, hash))
    ensures AreTrue(lines, files, hash) && NamesOf(lines) !! want.Keys ==> Wanted(lines, want).Some?
    ensures Wanted(lines, want).Some? ==> NamesOf(lines) !! want.Keys
  {
    if lines.Cons? && ParsedLine(lines.head).Some? {
      var s := ParsedLine(lines.head).value;
      if s.name !in want {
        var more := want[s.name := s.sum];
        WantedIsTrue(lines.tail, more, files, hash);
        assert HashesHold(more, files, hash) <==>
          HashesHold(want, files, hash) && CanHash(files, s.name) && hash(Head(files[s.name].content)) == s.sum by {
          assert more[s.name] == s.sum && forall n :: n in want ==> more[n] == want[n];
        }
      }
    }
  }

  lemma {:induction false} DistinctCount(names: seq<Name>)
    requires AreDistinct(names)
    ensures |AsSet(names)| == |names|
  {
    if names != [] {
      var last := names[|names| - 1];
      DistinctCount(names[..|names| - 1]);
      assert AsSet(names) == AsSet(names[..|names| - 1]) + {last};
      assert last !in names[..|names| - 1];
    }
  }

  lemma {:induction false} SameSize(a: set<Name>, b: set<Name>)
    requires a <= b && |a| == |b|
    ensures a == b
  {
    assert b == a + (b - a);
    assert |b - a| == 0;
  }

  lemma {:induction false} CoveredIsDistinct(ids: seq<Text>)
    requires AreDistinct(ids)
    ensures AreDistinct(Covered(ids)) && |Covered(ids)| == |ids| + 2
  {
    BlocksAre(ids);
  }

  lemma {:induction false} BlocksAre(ids: seq<Text>)
    ensures |Blocks(ids)| == |ids| && forall i :: 0 <= i < |ids| ==> Blocks(ids)[i] == Block(ids[i])
  {
    if ids != [] {
      BlocksAre(ids[1..]);
    }
  }

  /** The covered files are the driver, the name of the backup folder and the blocks of the kind; and of each as much is
      read as makes two contents the same exactly when they are, or are both longer than a mebibyte and the same up to
      the first byte past it. */
  lemma {:induction false} CoveredExactly(ids: seq<Text>, name: Name, a: Text, b: Text)
    ensures name in Covered(ids) <==> name == Driver || name == BkPath || (name.Block? && name.id in ids)
    ensures Head(a) == Head(b) <==>
      a == b || (|a| > 1048576 && |b| > 1048576 && a[..1048577] == b[..1048577])
  {
    BlocksAre(ids);
    assert |a| == 1048577 ==> a[..1048577] == a;
    assert |b| == 1048577 ==> b[..1048577] == b;
  }

  method ReadSums(all: List<Text>) returns (want: Option<map<Name, Text>>)
    ensures want == Wanted(all, map[])
  {
    var lines, read: map<Name, Text> := all, map[];
    while lines.Cons?
      invariant Wanted(lines, read) == Wanted(all, map[])
      decreases lines
    {
      var parsed := ParsedLine(lines.head);
      if parsed.None? || parsed.value.name in read {
        return None;
      }
      read := read[parsed.value.name := parsed.value.sum];
      lines := lines.tail;
    }
    want := Some(read);
  }

  predicate Matches(files: map<Name, File>, want: map<Name, Text>, name: Name, hash: Hash) {
    name in want && CanHash(files, name) && hash(Head(files[name].content)) == want[name]
  }

  method CheckFiles(files: map<Name, File>, want: map<Name, Text>, names: seq<Name>, hash: Hash) returns (ok: bool)
    ensures ok <==> forall n :: n in names ==> Matches(files, want, n, hash)
  {
    for i := 0 to |names|
      invariant forall j :: 0 <= j < i ==> Matches(files, want, names[j], hash)
    {
      var name := names[i];
      if !Matches(files, want, name, hash) {
        assert name in names;
        return false;
      }
    }
    ok := true;
  }

  lemma {:induction false} ReadsIntact(folder: Folder, ids: seq<Text>, hash: Hash, want: map<Name, Text>)
    requires AreIds(ids) && folder.sums.Some? && |folder.sums.value| <= MAX_SUMS
    requires Wanted(LinesOf(folder.sums.value), map[]) == Some(want)
    ensures IsIntact(folder, ids, hash) <==>
      && |want| == |Covered(ids)| && (forall n :: n in Covered(ids) ==> Matches(folder.files, want, n, hash))
      && HoldsNothingElse(folder, want.Keys)
  {
    var lines, covered := LinesOf(folder.sums.value), Covered(ids);
    WantedIsTrue(lines, map[], folder.files, hash);
    assert want.Keys == NamesOf(lines) && |want| == |want.Keys|;
    CoveredIsDistinct(ids);
    DistinctCount(covered);
    if |want| == |covered| && forall n :: n in covered ==> Matches(folder.files, want, n, hash) {
      assert forall n :: n in AsSet(covered) ==> n in want.Keys;
      SameSize(AsSet(covered), want.Keys);
      assert HashesHold(want, folder.files, hash);
    }
    if IsIntact(folder, ids, hash) {
      assert forall n :: n in covered ==> n in AsSet(covered);
    }
  }

  /** Says whether the files that the unit runs are the ones that were written. */
  method VerifyRun(folder: Folder, ids: seq<Text>, hash: Hash) returns (ok: bool)
    requires AreIds(ids)
    ensures ok <==> IsIntact(folder, ids, hash)
  {
    if folder.sums.None? || |folder.sums.value| > MAX_SUMS {
      return false;
    }
    var lines := LinesOf(folder.sums.value);
    WantedIsTrue(lines, map[], folder.files, hash);
    var want := ReadSums(lines);
    if want.None? {
      return false;
    }
    ReadsIntact(folder, ids, hash, want.value);
    if |want.value| != |Covered(ids)| {
      return false;
    }
    ok := CheckFiles(folder.files, want.value, Covered(ids), hash);
    ok := ok && HoldsNothingElse(folder, want.value.Keys);
  }

  // ---------------------------------------------------------------- writing them

  /** What a run is written from: the driver, the name of the backup folder, and the texts of the blocks. */
  datatype Spec = Spec(driver: Text, bk: Text, blocks: seq<(Text, Text)>)

  function WithBlocks(files: map<Name, File>, blocks: seq<(Text, Text)>): map<Name, File> {
    if blocks == [] then files
    else WithBlocks(files, blocks[..|blocks| - 1])[Block(blocks[|blocks| - 1].0) := Regular(blocks[|blocks| - 1].1)]
  }

  function FilesOf(spec: Spec): map<Name, File> {
    WithBlocks(map[Driver := Regular(spec.driver)], spec.blocks)[BkPath := Regular(spec.bk + [NL])]
  }

  /** Writes the folder of a run, its sums last; of a run that cannot be written nothing is left. `works` says which
      writes work. */
  method WriteRun(spec: Spec, ids: seq<Text>, hash: Hash, works: nat -> bool) returns (folder: Option<Folder>)
    ensures folder.Some? ==>
      && folder.value.files == FilesOf(spec) && folder.value.others == {}
      && SumLines(FilesOf(spec), Covered(ids), hash).Some?
      && folder.value.sums == Some(Written(SumLines(FilesOf(spec), Covered(ids), hash).value))
    ensures (forall k :: works(k)) && SumLines(FilesOf(spec), Covered(ids), hash).Some? ==> folder.Some?
  {
    if !works(0) {
      return None;
    }
    var files: map<Name, File> := map[Driver := Regular(spec.driver)];
    for i := 0 to |spec.blocks|
      invariant files == WithBlocks(map[Driver := Regular(spec.driver)], spec.blocks[..i])
    {
      assert spec.blocks[..i + 1][..i] == spec.blocks[..i];
      if !works(1 + i) {
        return None;
      }
      files := files[Block(spec.blocks[i].0) := Regular(spec.blocks[i].1)];
    }
    assert spec.blocks[..|spec.blocks|] == spec.blocks;
    if !works(1 + |spec.blocks|) {
      return None;
    }
    files := files[BkPath := Regular(spec.bk + [NL])];
    var lines := SumLines(files, Covered(ids), hash);
    if lines.None? || !works(2 + |spec.blocks|) {
      return None;
    }
    folder := Some(Folder(files, {}, Some(Written(lines.value))));
  }

  // ---------------------------------------------------------------- what was written is taken

  predicate AreNames(names: seq<Name>) {
    forall i :: 0 <= i < |names| ==> IsName(names[i])
  }

  lemma {:induction false} CoveredAreNames(ids: seq<Text>)
    requires AreIds(ids)
    ensures AreNames(Covered(ids))
  {
    BlocksAre(ids);
  }

  lemma {:induction false} LengthOfWritten(lines: Lines, n: nat)
    requires forall line :: In(line, lines) ==> |line| < n
    ensures |Written(lines)| <= n * Count(lines)
  {
    if lines.Cons? {
      assert forall line :: In(line, lines.tail) ==> In(line, lines);
      assert In(lines.head, lines);
      LengthOfWritten(lines.tail, n);
    }
  }

  /** The lines of files as they are: what they name, that they are true, and how long they are. */
  lemma {:induction false} SumLinesAreTrue(files: map<Name, File>, names: seq<Name>, hash: Hash)
    requires AreNames(names) && AreDistinct(names) && IsHashing(hash, files) && SumLines(files, names, hash).Some?
    ensures
      var lines := SumLines(files, names, hash).value;
      && AllOneLine(lines) && AreTrue(lines, files, hash) && NamesOf(lines) == AsSet(names) && Count(lines) == |names|
      && forall line :: In(line, lines) ==> |line| < 100
  {
    if names != [] {
      var name := names[0];
      var sum := hash(Head(files[name].content));
      assert IsName(name) && IsSum(sum);
      ParsesLine(sum, name);
      LineIsOneLine(sum, name);
      SumLinesAreTrue(files, names[1..], hash);
      assert name !in names[1..];
      assert AsSet(names) == {name} + AsSet(names[1..]);
      assert |NameText(name)| <= 26;
    }
  }

  /** A folder as it was written is taken for it exactly when it was given no block that a run of its kind does not
      have. */
  lemma {:induction false} WrittenIsIntact(files: map<Name, File>, ids: seq<Text>, hash: Hash, folder: Folder)
    requires AreIds(ids) && IsHashing(hash, files) && SumLines(files, Covered(ids), hash).Some?
    requires folder == Folder(files, {}, Some(Written(SumLines(files, Covered(ids), hash).value)))
    ensures IsIntact(folder, ids, hash) <==> forall n :: n in files && n.Block? ==> n in AsSet(Covered(ids))
  {
    var lines := SumLines(files, Covered(ids), hash).value;
    CoveredAreNames(ids);
    CoveredIsDistinct(ids);
    SumLinesAreTrue(files, Covered(ids), hash);
    SplitWritten(lines);
    LengthOfWritten(lines, 100);
  }

  predicate IsInjective(hash: Hash, a: Text, b: Text) {
    hash(a) == hash(b) ==> a == b
  }

  /** The covered files of a folder are those that were written, as far as they are read. */
  predicate SameCovered(files: map<Name, File>, later: map<Name, File>, names: seq<Name>) {
    forall n :: n in names ==> CanHash(files, n) && CanHash(later, n) && Head(later[n].content) == Head(files[n].content)
  }

  lemma {:induction false} TrueOfLater(files: map<Name, File>, later: map<Name, File>, names: seq<Name>, hash: Hash)
    requires AreNames(names) && AreDistinct(names) && IsHashing(hash, files) && SumLines(files, names, hash).Some?
    requires forall n :: n in names && CanHash(later, n) && CanHash(files, n) ==>
      IsInjective(hash, Head(later[n].content), Head(files[n].content))
    ensures AreTrue(SumLines(files, names, hash).value, later, hash) <==> SameCovered(files, later, names)
  {
    if names != [] {
      var name := names[0];
      assert name in names && name !in names[1..];
      ParsesLine(hash(Head(files[name].content)), name);
      SumLinesAreTrue(files, names[1..], hash);
      TrueOfLater(files, later, names[1..], hash);
      assert forall n :: n in names <==> n == name || n in names[1..];
    }
  }

  /** Whatever becomes of a folder whose sums stay: it is taken for the one that was written exactly while every file
      that the unit runs is, as far as it is read, what was written, and nothing was put beside the blocks. */
  lemma {:induction false} ChangesAreSeen(files: map<Name, File>, ids: seq<Text>, hash: Hash, later: Folder)
    requires AreIds(ids) && IsHashing(hash, files) && SumLines(files, Covered(ids), hash).Some?
    requires later.sums == Some(Written(SumLines(files, Covered(ids), hash).value))
    requires forall n :: n in Covered(ids) && CanHash(later.files, n) && CanHash(files, n) ==>
      IsInjective(hash, Head(later.files[n].content), Head(files[n].content))
    ensures IsIntact(later, ids, hash)
       <==> SameCovered(files, later.files, Covered(ids)) && HoldsNothingElse(later, AsSet(Covered(ids)))
  {
    var lines := SumLines(files, Covered(ids), hash).value;
    CoveredAreNames(ids);
    CoveredIsDistinct(ids);
    SumLinesAreTrue(files, Covered(ids), hash);
    SplitWritten(lines);
    LengthOfWritten(lines, 100);
    TrueOfLater(files, later.files, Covered(ids), hash);
  }

  /** A file with a change past the part that is read. */
  predicate AreAlike(a: File, b: File) {
    a.Regular? == b.Regular? && (a.Regular? ==> Head(a.content) == Head(b.content))
  }

  lemma {:induction false} TrueOfAlike(lines: List<Text>, a: map<Name, File>, b: map<Name, File>, hash: Hash)
    requires a.Keys == b.Keys && forall n :: n in a ==> AreAlike(a[n], b[n])
    ensures AreTrue(lines, a, hash) <==> AreTrue(lines, b, hash)
  {
    if lines.Cons? {
      TrueOfAlike(lines.tail, a, b, hash);
    }
  }

  /** Folders that differ past the part of their files that is read, whatever the hash is, are taken for the one that
      was written together or not at all. */
  lemma {:induction false} FarChangesAreNotSeen(a: Folder, b: Folder, ids: seq<Text>, hash: Hash)
    requires a.sums == b.sums && a.others == b.others
    requires a.files.Keys == b.files.Keys && forall n :: n in a.files ==> AreAlike(a.files[n], b.files[n])
    ensures IsIntact(a, ids, hash) <==> IsIntact(b, ids, hash)
  {
    if a.sums.Some? {
      TrueOfAlike(LinesOf(a.sums.value), a.files, b.files, hash);
    }
  }
}
