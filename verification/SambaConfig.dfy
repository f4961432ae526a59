/** The Samba configuration of the shares: how it is written, how it is read back, and what is told apart by
    comparing two of them.

    How a name is put into lower case is a parameter, `lower`. */
module SambaConfig {
  import opened TextLines
  import opened Shares

  /** The longest line the scanner takes, plus one. */
  const MAX := 65536

  // ---------------------------------------------------------------- writing

  function WithoutSlashes(path: Text): Text {
    if path != [] && path[|path| - 1] == '/' then WithoutSlashes(path[..|path| - 1]) else path
  }

  function AfterSlash(path: Text): Text {
    if path == [] || path[|path| - 1] == '/' then [] else AfterSlash(path[..|path| - 1]) + [path[|path| - 1]]
  }

  /** The last element of a path. */
  function Base(path: Text): Text {
    if path == [] then "."
    else
      var element := AfterSlash(WithoutSlashes(path));
      if element == [] then "/" else element
  }

  datatype Key = Comment | Public | Path | Browseable | ReadOnly | WriteList | GuestOk | ValidUsers | CreateMask
               | DirectoryMask | ForceUser | VfsObjects | FruitTimeMachine

  datatype Setting = Setting(key: Key, value: Text)

  type Settings = List<Setting>

  function KeyText(key: Key): Text {
    match key
    case Comment => "comment"
    case Public => "public"
    case Path => "path"
    case Browseable => "browseable"
    case ReadOnly => "read only"
    case WriteList => "write list"
    case GuestOk => "guest ok"
    case ValidUsers => "valid users"
    case CreateMask => "create mask"
    case DirectoryMask => "directory mask"
    case ForceUser => "force user"
    case VfsObjects => "vfs objects"
    case FruitTimeMachine => "fruit:time machine"
  }

  function LineOf(key: Key, value: Text): Text {
    KeyText(key) + " = " + value
  }

  const TIME_MACHINE := LineOf(FruitTimeMachine, "yes")

  function Names(members: List<Member>): List<Text> {
    match members
    case Nil => Nil
    case Cons(m, rest) => Cons(m.username, Names(rest))
  }

  function Writers(members: List<Member>): List<Text> {
    match members
    case Nil => Nil
    case Cons(m, rest) => if m.readOnly then Writers(rest) else Cons(m.username, Writers(rest))
  }

  function Joined(words: List<Text>): Text {
    match words
    case Nil => []
    case Cons(word, rest) => if rest.Nil? then word else word + [' '] + Joined(rest)
  }

  function GuestSettings(path: Text, tail: Settings): Settings {
    Cons(Setting(Comment, "CasaOS share " + Base(path)), Cons(Setting(Public, "Yes"), Cons(Setting(Path, path),
    Cons(Setting(Browseable, "Yes"), Cons(Setting(ReadOnly, "No"), Cons(Setting(GuestOk, "Yes"),
    Cons(Setting(CreateMask, "0777"), Cons(Setting(DirectoryMask, "0777"), Cons(Setting(ForceUser, "root"), tail)))))))))
  }

  function ProtectedSettings(path: Text, owner: Text, valid: List<Text>, writers: List<Text>, tail: Settings): Settings {
    var access := Cons(Setting(GuestOk, "No"), Cons(Setting(ValidUsers, Joined(valid)), Cons(Setting(CreateMask, "0660"),
                  Cons(Setting(DirectoryMask, "0770"), Cons(Setting(ForceUser, owner), tail)))));
    Cons(Setting(Comment, "CasaOS share " + Base(path)), Cons(Setting(Public, "No"), Cons(Setting(Path, path),
    Cons(Setting(Browseable, "Yes"), Cons(Setting(ReadOnly, "Yes"),
    if writers.Nil? then access else Cons(Setting(WriteList, Joined(writers)), access))))))
  }

  function TimeMachineSettings(on: bool): Settings {
    if on then Cons(Setting(VfsObjects, "catia fruit streams_xattr"), Cons(Setting(FruitTimeMachine, "yes"), Nil)) else Nil
  }

  function SettingsOf(share: Share): Settings {
    var members, extra := MemberList(share.members, share.username), TimeMachineSettings(share.timeMachine);
    if share.username == [] then GuestSettings(share.path, extra)
    else ProtectedSettings(share.path, share.username, Names(members), Writers(members), extra)
  }

  function Rendered(settings: Settings): Lines {
    match settings
    case Nil => Nil
    case Cons(s, rest) => Cons(LineOf(s.key, s.value), Rendered(rest))
  }

  function Header(share: Share): Text {
    ['['] + Base(share.path) + [']']
  }

  /** The lines of the section of a share. */
  function SectionLines(share: Share): Lines {
    Cons([], Cons(Header(share), Append(Rendered(SettingsOf(share)), Cons([], Nil))))
  }

  lemma {:induction false} AppendIsAssociative<T>(a: List<T>, b: List<T>, c: List<T>)
    ensures Append(Append(a, b), c) == Append(a, Append(b, c))
  {
    if a.Cons? {
      AppendIsAssociative(a.tail, b, c);
    }
  }

  lemma {:induction false} AppendNil<T>(a: List<T>)
    ensures Append(a, Nil) == a
  {
    if a.Cons? {
      AppendNil(a.tail);
    }
  }

  /** Renders one share as a section. */
  method SambaSection(share: Share) returns (text: Text)
    ensures text == Written(SectionLines(share))
  {
    var extra := TimeMachineSettings(share.timeMachine);
    var settings;
    if share.username == [] {
      settings := GuestSettings(share.path, extra);
    } else {
      var list := MemberList(share.members, share.username);
      var members, valid, writers := list, Nil, Nil;
      while members.Cons?
        invariant Append(valid, Names(members)) == Names(list)
        invariant Append(writers, Writers(members)) == Writers(list)
        decreases members
      {
        var member := members.head;
        AppendIsAssociative(valid, Cons(member.username, Nil), Names(members.tail));
        valid := Append(valid, Cons(member.username, Nil));
        if !member.readOnly {
          AppendIsAssociative(writers, Cons(member.username, Nil), Writers(members.tail));
          writers := Append(writers, Cons(member.username, Nil));
        }
        members := members.tail;
      }
      AppendNil(valid);
      AppendNil(writers);
      settings := ProtectedSettings(share.path, share.username, valid, writers, extra);
    }
    text := Written(Cons([], Cons(Header(share), Append(Rendered(settings), Cons([], Nil)))));
  }

  /** The lines of the whole configuration. */
  function ConfigLines(shares: List<Share>): Lines {
    match shares
    case Nil => Nil
    case Cons(share, rest) => Append(SectionLines(share), ConfigLines(rest))
  }

  function Config(shares: List<Share>): Text {
    Written(ConfigLines(shares))
  }

  // ---------------------------------------------------------------- reading

  datatype Section = Section(name: Text, lines: Lines)

  datatype Entry = Entry(name: Text, text: Text, timeMachine: bool)

  predicate IsHeader(line: Text) {
    line != [] && line[0] == '[' && line[|line| - 1] == ']'
  }

  function HeaderName(line: Text): Text
    requires IsHeader(line)
  {
    Trim(line[1..|line| - 1])
  }

  function Trimmed(lines: Lines): Lines {
    match lines
    case Nil => Nil
    case Cons(line, rest) => Cons(Trim(line), Trimmed(rest))
  }

  /** What belongs to a section that has begun: the lines before the next header that are not empty. */
  function Body(lines: Lines): Lines {
    match lines
    case Nil => Nil
    case Cons(line, rest) =>
      if IsHeader(line) then Nil else if line == [] then Body(rest) else Cons(line, Body(rest))
  }

  /** The sections of trimmed lines, in order; one with no name is none. */
  function Sections(lines: Lines): List<Section> {
    match lines
    case Nil => Nil
    case Cons(line, rest) =>
      if IsHeader(line) && HeaderName(line) != []
      then Cons(Section(HeaderName(line), Cons(line, Body(rest))), Sections(rest))
      else Sections(rest)
  }

  function EntryOf(name: Text, text: Text): Entry {
    Entry(name, text, Contains(text, [NL] + TIME_MACHINE + [NL]))
  }

  /** The sections by name; of two with one name the later one. */
  function Table(sections: List<Section>, lower: Text -> Text): map<Text, Entry> {
    match sections
    case Nil => map[]
    case Cons(s, rest) => map[lower(s.name) := EntryOf(s.name, Written(s.lines))] + Table(rest, lower)
  }

  function Parsed(data: Text, lower: Text -> Text): map<Text, Entry> {
    Table(Sections(Trimmed(Scanned(data, MAX))), lower)
  }

  function Flushed(sections: map<Text, Entry>, name: Text, text: Text, lower: Text -> Text): map<Text, Entry> {
    if name == [] then sections else sections[lower(name) := EntryOf(name, text)]
  }

  /** What reading comes to that has these sections, is in one of this name and text, and has these lines left. */
  function Outcome(sections: map<Text, Entry>, name: Text, text: Text, rest: Lines, lower: Text -> Text): map<Text, Entry> {
    Flushed(sections, name, text + Written(Body(Trimmed(rest))), lower) + Table(Sections(Trimmed(rest)), lower)
  }

  lemma {:induction false} TextGrows(text: Text, line: Text, more: Text)
    ensures text + (line + [NL] + more) == text + line + [NL] + more
  {
  }

  lemma {:induction false} TurnInside(sections: map<Text, Entry>, name: Text, text: Text, rest: Lines, lower: Text -> Text)
    requires rest.Cons? && !IsHeader(Trim(rest.head))
    ensures
      var line := Trim(rest.head);
      Outcome(sections, name, text, rest, lower)
      == Outcome(sections, name, if name != [] && line != [] then text + line + [NL] else text, rest.tail, lower)
  {
    TextGrows(text, Trim(rest.head), Written(Body(Trimmed(rest.tail))));
  }

  lemma {:induction false} EntryBegins(line: Text, rest: Lines, lower: Text -> Text)
    requires IsHeader(Trim(line)) && HeaderName(Trim(line)) != []
    ensures
      var (name, body) := (HeaderName(Trim(line)), Body(Trimmed(rest)));
      Table(Sections(Trimmed(Cons(line, rest))), lower)
      == map[lower(name) := EntryOf(name, [] + Trim(line) + [NL] + Written(body))] + Table(Sections(Trimmed(rest)), lower)
  {
    assert [] + Trim(line) + [NL] + Written(Body(Trimmed(rest))) == Written(Cons(Trim(line), Body(Trimmed(rest))));
  }

  lemma {:induction false} AddedFirst(a: map<Text, Entry>, key: Text, entry: Entry, b: map<Text, Entry>)
    ensures a + (map[key := entry] + b) == a[key := entry] + b
  {
  }

  lemma {:induction false} TurnAtHeader(sections: map<Text, Entry>, name: Text, text: Text, rest: Lines, lower: Text -> Text)
    requires rest.Cons? && IsHeader(Trim(rest.head))
    ensures
      var line := Trim(rest.head);
      var next := HeaderName(line);
      Outcome(sections, name, text, rest, lower)
      == Outcome(Flushed(sections, name, text, lower), next, if next != [] then [] + line + [NL] else [], rest.tail, lower)
  {
    var line, flushed := Trim(rest.head), Flushed(sections, name, text, lower);
    assert text + [] == text;
    assert Outcome(sections, name, text, rest, lower) == flushed + Table(Sections(Trimmed(rest)), lower);
    if HeaderName(line) != [] {
      EntryBegins(rest.head, rest.tail, lower);
      AddedFirst(flushed, lower(HeaderName(line)),
                 EntryOf(HeaderName(line), [] + line + [NL] + Written(Body(Trimmed(rest.tail)))), Table(Sections(Trimmed(rest.tail)), lower));
    }
  }

  /** Splits a configuration into its sections, keyed by name without regard to case. */
  method SambaShareSections(data: Text, lower: Text -> Text) returns (sections: map<Text, Entry>)
    ensures sections == Parsed(data, lower)
  {
    sections := map[];
    var name, text: Text, lines := [], [], Scanned(data, MAX);
    while lines.Cons?
      invariant Outcome(sections, name, text, lines, lower) == Parsed(data, lower)
      decreases lines
    {
      var line := Trim(lines.head);
      if IsHeader(line) {
        TurnAtHeader(sections, name, text, lines, lower);
        sections := Flushed(sections, name, text, lower);
        text := [];
        name := HeaderName(line);
      } else {
        TurnInside(sections, name, text, lines, lower);
      }
      if name != [] && line != [] {
        text := text + line + [NL];
      }
      lines := lines.tail;
    }
    assert text + [] == text;
    sections := Flushed(sections, name, text, lower);
  }

  // ---------------------------------------------------------------- the lines that are written

  predicate AreOneLine(settings: Settings) {
    settings.Cons? ==> OneLine(settings.head.value) && AreOneLine(settings.tail)
  }

  /** The fields of a share hold no new line. */
  predicate HasNoNewline(share: Share) {
    OneLine(share.path) && OneLine(share.username)
  }

  ghost predicate HaveNoNewline(shares: List<Share>) {
    shares.Cons? ==> HasNoNewline(shares.head) && HaveNoNewline(shares.tail)
  }

  lemma {:induction false} KeyTextsAreOneLine()
    ensures OneLine("comment") && OneLine("public") && OneLine("path") && OneLine("browseable") && OneLine("read only")
    ensures OneLine("write list") && OneLine("guest ok")
  {
  }

  lemma {:induction false} KeyTextIsOneLine(key: Key)
    ensures OneLine(KeyText(key))
  {
    KeyTextsAreOneLine();
  }

  lemma {:induction false} KeyTextEnds(key: Key)
    ensures |KeyText(key)| >= 4 && KeyText(key)[0] != '[' && !IsSpace(KeyText(key)[0]) && !IsSpace(KeyText(key)[|KeyText(key)| - 1])
  {
  }

  /** A key's first two letters tell whether it is the one that turns Time Machine on. */
  lemma {:induction false} KeyTextBegins(key: Key)
    ensures |KeyText(key)| >= 4
    ensures KeyText(key)[0] == 'f' && KeyText(key)[1] == 'r' <==> key == FruitTimeMachine
  {
  }

  lemma {:induction false} LineIsOneLine(key: Key, value: Text)
    requires OneLine(value)
    ensures OneLine(LineOf(key, value))
  {
    KeyTextIsOneLine(key);
    assert OneLine(" = ");
  }

  /** Trimming a line of a setting leaves a line of the section, and no other than the one that is meant turns
      Time Machine on. */
  lemma {:induction false} TrimmedSetting(key: Key, value: Text)
    ensures Trim(LineOf(key, value)) != [] && !IsHeader(Trim(LineOf(key, value)))
    ensures Trim(LineOf(key, value)) == TIME_MACHINE ==> key == FruitTimeMachine
    ensures OneLine(value) ==> OneLine(Trim(LineOf(key, value)))
  {
    var line := LineOf(key, value);
    KeyTextEnds(key);
    KeyTextBegins(key);
    KeyTextBegins(FruitTimeMachine);
    TrimKeeps(line, |KeyText(key)|);
    assert Trim(line)[0] == KeyText(key)[0] && Trim(line)[1] == KeyText(key)[1];
    assert TIME_MACHINE[0] == KeyText(FruitTimeMachine)[0] && TIME_MACHINE[1] == KeyText(FruitTimeMachine)[1];
    TrimIsPart(line);
    if OneLine(value) {
      LineIsOneLine(key, value);
    }
  }

  lemma {:induction false} TimeMachineLine()
    ensures Trim(TIME_MACHINE) == TIME_MACHINE && OneLine(TIME_MACHINE)
  {
  }

  lemma {:induction false} WithoutSlashesIsPart(path: Text)
    ensures OneLine(path) ==> OneLine(WithoutSlashes(path))
  {
    if path != [] && path[|path| - 1] == '/' {
      WithoutSlashesIsPart(path[..|path| - 1]);
    }
  }

  lemma {:induction false} AfterSlashIsPart(path: Text)
    ensures OneLine(path) ==> OneLine(AfterSlash(path))
  {
    if path != [] && path[|path| - 1] != '/' {
      AfterSlashIsPart(path[..|path| - 1]);
    }
  }

  lemma {:induction false} BaseIsOneLine(path: Text)
    requires OneLine(path)
    ensures OneLine(Base(path)) && OneLine("CasaOS share " + Base(path))
  {
    WithoutSlashesIsPart(path);
    AfterSlashIsPart(WithoutSlashes(path));
    assert OneLine(".") && OneLine("/") && OneLine("CasaOS share ");
  }

  predicate WordsAreOneLine(words: List<Text>) {
    words.Cons? ==> OneLine(words.head) && WordsAreOneLine(words.tail)
  }

  lemma {:induction false} JoinedIsOneLine(words: List<Text>)
    requires WordsAreOneLine(words)
    ensures OneLine(Joined(words))
  {
    if words.Cons? {
      JoinedIsOneLine(words.tail);
    }
  }

  lemma {:induction false} PlainIsOneLine(name: Text)
    requires IsPlainName(name)
    ensures OneLine(name)
  {
    assert IsSpace(NL);
    assert forall i :: 0 <= i < |name| ==> !IsSpace(name[i]);
  }

  lemma {:induction false} PlainNamesAreOneLine(members: List<Member>)
    requires ArePlain(members)
    ensures WordsAreOneLine(Names(members)) && WordsAreOneLine(Writers(members))
  {
    if members.Cons? {
      PlainIsOneLine(members.head.username);
      PlainNamesAreOneLine(members.tail);
    }
  }

  lemma {:induction false} NamesAreOneLine(share: Share)
    requires OneLine(share.username)
    ensures var list := MemberList(share.members, share.username); WordsAreOneLine(Names(list)) && WordsAreOneLine(Writers(list))
  {
    FieldsArePlain(share.members);
    PlainNamesAreOneLine(ParsedMembers(Fields(share.members)));
  }

  lemma {:induction false} ConstantsAreOneLine()
    ensures OneLine("Yes") && OneLine("No") && OneLine("0777") && OneLine("0660") && OneLine("0770") && OneLine("root")
    ensures OneLine("catia fruit streams_xattr") && OneLine("yes")
  {
  }

  lemma {:induction false} SettingsAreOneLine(share: Share)
    requires HasNoNewline(share)
    ensures AreOneLine(SettingsOf(share))
  {
    var members, extra := MemberList(share.members, share.username), TimeMachineSettings(share.timeMachine);
    ConstantsAreOneLine();
    BaseIsOneLine(share.path);
    NamesAreOneLine(share);
    JoinedIsOneLine(Names(members));
    JoinedIsOneLine(Writers(members));
    assert AreOneLine(extra);
    if share.username == [] {
      GuestIsOneLine(share.path, extra);
    } else {
      ProtectedIsOneLine(share.path, share.username, Names(members), Writers(members), extra);
    }
  }

  function OneLineWith(key: Key, value: Text, rest: Settings): (settings: Settings)
    requires OneLine(value) && AreOneLine(rest)
    ensures AreOneLine(settings)
  {
    Cons(Setting(key, value), rest)
  }

  lemma {:induction false} GuestIsOneLine(path: Text, tail: Settings)
    requires OneLine(path) && OneLine("CasaOS share " + Base(path)) && AreOneLine(tail)
    ensures AreOneLine(GuestSettings(path, tail))
  {
    ConstantsAreOneLine();
    var masks := OneLineWith(CreateMask, "0777", OneLineWith(DirectoryMask, "0777", OneLineWith(ForceUser, "root", tail)));
    var open := OneLineWith(Browseable, "Yes", OneLineWith(ReadOnly, "No", OneLineWith(GuestOk, "Yes", masks)));
    var all := OneLineWith(Comment, "CasaOS share " + Base(path), OneLineWith(Public, "Yes", OneLineWith(Path, path, open)));
  }

  lemma {:induction false} ProtectedIsOneLine(path: Text, owner: Text, valid: List<Text>, writers: List<Text>, tail: Settings)
    requires OneLine(path) && OneLine("CasaOS share " + Base(path)) && OneLine(owner) && AreOneLine(tail)
    requires OneLine(Joined(valid)) && OneLine(Joined(writers))
    ensures AreOneLine(ProtectedSettings(path, owner, valid, writers, tail))
  {
    ConstantsAreOneLine();
    var masks := OneLineWith(CreateMask, "0660", OneLineWith(DirectoryMask, "0770", OneLineWith(ForceUser, owner, tail)));
    var access := OneLineWith(GuestOk, "No", OneLineWith(ValidUsers, Joined(valid), masks));
    var more := if writers.Nil? then access else OneLineWith(WriteList, Joined(writers), access);
    var shut := OneLineWith(Path, path, OneLineWith(Browseable, "Yes", OneLineWith(ReadOnly, "Yes", more)));
    var all := OneLineWith(Comment, "CasaOS share " + Base(path), OneLineWith(Public, "No", shut));
  }

  lemma {:induction false} RenderedIsOneLine(settings: Settings, tail: Lines)
    requires AreOneLine(settings) && AllOneLine(tail)
    ensures AllOneLine(Append(Rendered(settings), tail))
  {
    if settings.Cons? {
      LineIsOneLine(settings.head.key, settings.head.value);
      RenderedIsOneLine(settings.tail, tail);
    }
  }

  lemma {:induction false} AppendIsOneLine(a: Lines, b: Lines)
    requires AllOneLine(a) && AllOneLine(b)
    ensures AllOneLine(Append(a, b))
  {
    if a.Cons? {
      AppendIsOneLine(a.tail, b);
    }
  }

  lemma {:induction false} ConfigIsOneLine(shares: List<Share>)
    requires HaveNoNewline(shares)
    ensures AllOneLine(ConfigLines(shares))
  {
    if shares.Cons? {
      var share := shares.head;
      BaseIsOneLine(share.path);
      SettingsAreOneLine(share);
      assert AllOneLine(Cons([], Nil));
      RenderedIsOneLine(SettingsOf(share), Cons([], Nil));
      var inner := Cons(Header(share), Append(Rendered(SettingsOf(share)), Cons([], Nil)));
      assert AllOneLine(inner) && AllOneLine(Cons([], inner));
      ConfigIsOneLine(shares.tail);
      AppendIsOneLine(SectionLines(share), ConfigLines(shares.tail));
    }
  }

  // ---------------------------------------------------------------- what is read of what is written

  /** The lines that are read, trimmed: those before the first that is too long. */
  function Fitting(lines: Lines): Lines {
    match lines
    case Nil => Nil
    case Cons(line, rest) => if |line| >= MAX then Nil else Cons(Trim(line), Fitting(rest))
  }

  predicate AllFit(lines: Lines) {
    lines.Cons? ==> |lines.head| < MAX && AllFit(lines.tail)
  }

  lemma {:induction false} FittingIsTrimmed(lines: Lines)
    ensures Trimmed(UntilLong(lines, MAX)) == Fitting(lines)
  {
    if lines.Cons? {
      TrimDropsCR(lines.head);
      FittingIsTrimmed(lines.tail);
    }
  }

  /** The section of a share as it is read when it is read whole. */
  function SectionOf(share: Share): Section {
    Section(Trim(Base(share.path)), Cons(Trim(Header(share)), Trimmed(Rendered(SettingsOf(share)))))
  }

  function CutSectionOf(share: Share): Section {
    Section(Trim(Base(share.path)), Cons(Trim(Header(share)), Fitting(Rendered(SettingsOf(share)))))
  }

  /** The sections read of a configuration: each share's whole, up to a line that is too long for the scanner,
      where the reading ends. */
  function Expected(shares: List<Share>): List<Section> {
    match shares
    case Nil => Nil
    case Cons(share, rest) =>
      if AllFit(SectionLines(share)) then
        if SectionOf(share).name == [] then Expected(rest) else Cons(SectionOf(share), Expected(rest))
      else if |Header(share)| >= MAX || SectionOf(share).name == [] then Nil
      else Cons(CutSectionOf(share), Nil)
  }

  lemma {:induction false} TrimmedHeader(name: Text)
    ensures
      var header := ['['] + name + [']'];
      Trim(header) == header && IsHeader(header) && HeaderName(header) == Trim(name)
  {
    var header := ['['] + name + [']'];
    TrimKeeps(header, |header|);
    assert header[1..|header| - 1] == name;
  }

  /** The lines of settings are all in the section that has begun; of those after one that is too long nothing
      is read. */
  lemma {:induction false} BodyOfSettings(settings: Settings, tail: Lines)
    ensures AllFit(Rendered(settings)) ==>
      Body(Fitting(Append(Rendered(settings), tail))) == Append(Trimmed(Rendered(settings)), Body(Fitting(tail)))
    ensures !AllFit(Rendered(settings)) ==> Body(Fitting(Append(Rendered(settings), tail))) == Fitting(Rendered(settings))
  {
    if settings.Cons? {
      TrimmedSetting(settings.head.key, settings.head.value);
      BodyOfSettings(settings.tail, tail);
    }
  }

  lemma {:induction false} SectionsAfterSettings(settings: Settings, tail: Lines)
    ensures Sections(Fitting(Append(Rendered(settings), tail))) == if AllFit(Rendered(settings)) then Sections(Fitting(tail)) else Nil
  {
    if settings.Cons? {
      TrimmedSetting(settings.head.key, settings.head.value);
      SectionsAfterSettings(settings.tail, tail);
    }
  }

  lemma {:induction false} SectionFits(settings: Settings)
    ensures AllFit(Append(Rendered(settings), Cons([], Nil))) == AllFit(Rendered(settings))
  {
    if settings.Cons? {
      SectionFits(settings.tail);
    }
  }

  lemma {:induction false} BlankEndsNothing(tail: Lines)
    ensures Trim([]) == [] && Fitting(Cons([], tail)) == Cons([], Fitting(tail))
    ensures Body(Fitting(Cons([], tail))) == Body(Fitting(tail)) && Sections(Fitting(Cons([], tail))) == Sections(Fitting(tail))
  {
  }

  /** The lines of a share's section after its header, and of the sections that follow it. */
  function LinesAfterHeader(share: Share, rest: List<Share>): Lines {
    Append(Append(Rendered(SettingsOf(share)), Cons([], Nil)), ConfigLines(rest))
  }

  lemma {:induction false} AppendTwo<T>(x: T, y: T, a: List<T>, b: List<T>)
    ensures Append(Cons(x, Cons(y, a)), b) == Cons(x, Cons(y, Append(a, b)))
  {
    assert Append(Cons(y, a), b) == Cons(y, Append(a, b));
  }

  lemma {:induction false} ConfigBegins(share: Share, rest: List<Share>)
    ensures ConfigLines(Cons(share, rest)) == Cons([], Cons(Header(share), LinesAfterHeader(share, rest)))
  {
    AppendTwo([], Header(share), Append(Rendered(SettingsOf(share)), Cons([], Nil)), ConfigLines(rest));
  }

  lemma {:induction false} NothingBefore(shares: List<Share>)
    ensures Body(Fitting(ConfigLines(shares))) == Nil
  {
    if shares.Cons? {
      ConfigBegins(shares.head, shares.tail);
      BlankEndsNothing(Cons(Header(shares.head), LinesAfterHeader(shares.head, shares.tail)));
      TrimmedHeader(Base(shares.head.path));
    }
  }

  /** What is read after the header of a share. */
  lemma {:induction false} AfterHeader(share: Share, rest: List<Share>)
    ensures
      var settings := SettingsOf(share);
      var more := LinesAfterHeader(share, rest);
      && Body(Fitting(more)) == (if AllFit(Rendered(settings)) then Trimmed(Rendered(settings)) else Fitting(Rendered(settings)))
      && Sections(Fitting(more)) == (if AllFit(Rendered(settings)) then Sections(Fitting(ConfigLines(rest))) else Nil)
  {
    var settings := SettingsOf(share);
    AppendIsAssociative(Rendered(settings), Cons([], Nil), ConfigLines(rest));
    assert Append(Cons([], Nil), ConfigLines(rest)) == Cons([], ConfigLines(rest));
    BodyOfSettings(settings, Cons([], ConfigLines(rest)));
    SectionsAfterSettings(settings, Cons([], ConfigLines(rest)));
    BlankEndsNothing(ConfigLines(rest));
    NothingBefore(rest);
    AppendNil(Trimmed(Rendered(settings)));
  }

  lemma {:induction false} FirstSection(share: Share, rest: List<Share>)
    requires Sections(Fitting(ConfigLines(rest))) == Expected(rest)
    ensures Sections(Fitting(Cons(Header(share), LinesAfterHeader(share, rest)))) == Expected(Cons(share, rest))
  {
    TrimmedHeader(Base(share.path));
    SectionFits(SettingsOf(share));
    AfterHeader(share, rest);
    var lines := Append(Rendered(SettingsOf(share)), Cons([], Nil));
    assert AllFit(SectionLines(share)) <==> |Header(share)| < MAX && AllFit(lines) by {
      assert SectionLines(share).tail == Cons(Header(share), lines);
    }
  }

  lemma {:induction false} SectionsOfConfig(shares: List<Share>)
    ensures Sections(Fitting(ConfigLines(shares))) == Expected(shares)
  {
    match shares
    case Nil =>
    case Cons(share, rest) =>
      ConfigBegins(share, rest);
      BlankEndsNothing(Cons(Header(share), LinesAfterHeader(share, rest)));
      SectionsOfConfig(rest);
      FirstSection(share, rest);
  }

  /** Reading a configuration that was written gives the shares' sections, in order, each with every setting. */
  lemma {:induction false} PrintedParses(shares: List<Share>)
    requires HaveNoNewline(shares)
    ensures Sections(Trimmed(Scanned(Config(shares), MAX))) == Expected(shares)
  {
    ConfigIsOneLine(shares);
    ScannedWritten(ConfigLines(shares), MAX);
    FittingIsTrimmed(ConfigLines(shares));
    SectionsOfConfig(shares);
  }
}
