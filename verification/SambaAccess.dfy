/** What the section of a share says of its access, read from its lines as they are written. */
module SambaAccess {
  import opened TextLines
  import opened Shares
  import opened SambaConfig

  datatype Told = Nothing | Value(text: Text)

  /** What a line says of a setting. */
  function ValueIn(line: Text, key: Text): Told {
    if key + " = " <= line then Value(line[|key| + 3..]) else Nothing
  }

  /** What the first line that speaks of a setting says of it. */
  function ValueOf(lines: Lines, key: Text): Told {
    match lines
    case Nil => Nothing
    case Cons(line, rest) => if ValueIn(line, key) != Nothing then ValueIn(line, key) else ValueOf(rest, key)
  }

  /** Whether the words of a setting have a name among them. */
  predicate Lists(lines: Lines, key: Text, name: Text) {
    ValueOf(lines, key) != Nothing && In(name, Fields(ValueOf(lines, key).text))
  }

  // ---------------------------------------------------------------- the lines

  function First(settings: Settings, key: Key): Told {
    match settings
    case Nil => Nothing
    case Cons(s, rest) => if s.key == key then Value(s.value) else First(rest, key)
  }

  /** No two keys begin with the same two characters. */
  lemma {:induction false} KeysDiffer(a: Key, b: Key)
    requires a != b
    ensures |KeyText(a)| >= 4 && |KeyText(b)| >= 4
    ensures KeyText(a)[0] != KeyText(b)[0] || KeyText(a)[1] != KeyText(b)[1]
  {
  }

  lemma {:induction false} LineSays(key: Key, value: Text, asked: Key)
    ensures ValueIn(LineOf(key, value), KeyText(asked)) == if key == asked then Value(value) else Nothing
  {
    var line := LineOf(key, value);
    if key == asked {
      assert line[|KeyText(key)| + 3..] == value;
    } else {
      KeysDiffer(key, asked);
      assert line[0] == KeyText(key)[0] && line[1] == KeyText(key)[1];
      var begin := KeyText(asked) + " = ";
      assert begin[0] == KeyText(asked)[0] && begin[1] == KeyText(asked)[1];
    }
  }

  lemma {:induction false} RenderedSays(settings: Settings, after: Lines, asked: Key)
    ensures ValueOf(Append(Rendered(settings), after), KeyText(asked))
         == if First(settings, asked) != Nothing then First(settings, asked) else ValueOf(after, KeyText(asked))
  {
    if settings.Cons? {
      LineSays(settings.head.key, settings.head.value, asked);
      RenderedSays(settings.tail, after, asked);
    }
  }

  lemma {:induction false} SectionSays(share: Share, asked: Key)
    ensures ValueOf(SectionLines(share), KeyText(asked)) == First(SettingsOf(share), asked)
  {
    var key := KeyText(asked);
    KeyTextEnds(asked);
    assert (key + " = ")[0] == key[0];
    assert ValueIn([], key) == Nothing && ValueIn(Header(share), key) == Nothing;
    RenderedSays(SettingsOf(share), Cons([], Nil), asked);
    assert ValueOf(Cons([], Nil), key) == Nothing;
  }

  // ---------------------------------------------------------------- who is let in

  /** A guest share is open to everybody, without a list, and its files are root's. A protected one lets no guest in,
      cannot be written but by those it lists, and its files are its owner's and nobody else's to see. */
  lemma {:induction false} AccessIsWhole(share: Share)
    ensures
      var lines, guest := SectionLines(share), share.username == [];
      && ValueOf(lines, "path") == Value(share.path)
      && ValueOf(lines, "guest ok") == ValueOf(lines, "public") == Value(if guest then "Yes" else "No")
      && ValueOf(lines, "read only") == Value(if guest then "No" else "Yes")
      && ValueOf(lines, "create mask") == Value(if guest then "0777" else "0660")
      && ValueOf(lines, "directory mask") == Value(if guest then "0777" else "0770")
      && ValueOf(lines, "force user") == Value(if guest then "root" else share.username)
      && (guest ==> ValueOf(lines, "valid users") == ValueOf(lines, "write list") == Nothing)
      && (ValueOf(lines, "fruit:time machine") == if share.timeMachine then Value("yes") else Nothing)
  {
    LinesSay(share, Path);
    LinesSay(share, Public);
    LinesSay(share, GuestOk);
    LinesSay(share, ReadOnly);
    LinesSay(share, CreateMask);
    LinesSay(share, DirectoryMask);
    LinesSay(share, ForceUser);
    LinesSay(share, ValidUsers);
    LinesSay(share, WriteList);
    LinesSay(share, FruitTimeMachine);
  }

  lemma {:induction false} NextSays(s: Setting, rest: Settings, asked: Key)
    ensures First(Cons(s, rest), asked) == if s.key == asked then Value(s.value) else First(rest, asked)
  {
  }

  lemma {:induction false} GuestSays(path: Text, tail: Settings, asked: Key)
    ensures First(GuestSettings(path, tail), asked) ==
      match asked
      case Comment => Value("CasaOS share " + Base(path))
      case Public => Value("Yes")
      case Path => Value(path)
      case Browseable => Value("Yes")
      case ReadOnly => Value("No")
      case GuestOk => Value("Yes")
      case CreateMask => Value("0777")
      case DirectoryMask => Value("0777")
      case ForceUser => Value("root")
      case _ => First(tail, asked)
  {
    var a := Cons(Setting(ForceUser, "root"), tail);
    var b := Cons(Setting(CreateMask, "0777"), Cons(Setting(DirectoryMask, "0777"), a));
    var c := Cons(Setting(ReadOnly, "No"), Cons(Setting(GuestOk, "Yes"), b));
    var d := Cons(Setting(Path, path), Cons(Setting(Browseable, "Yes"), c));
    assert GuestSettings(path, tail) == Cons(Setting(Comment, "CasaOS share " + Base(path)), Cons(Setting(Public, "Yes"), d));
    NextSays(Setting(Public, "Yes"), d, asked);
    NextSays(Setting(Browseable, "Yes"), c, asked);
    NextSays(Setting(GuestOk, "Yes"), b, asked);
    NextSays(Setting(DirectoryMask, "0777"), a, asked);
    NextSays(Setting(ForceUser, "root"), tail, asked);
  }

  lemma {:induction false} ProtectedSays(path: Text, owner: Text, valid: List<Text>, writers: List<Text>, tail: Settings, asked: Key)
    ensures First(ProtectedSettings(path, owner, valid, writers, tail), asked) ==
      match asked
      case Comment => Value("CasaOS share " + Base(path))
      case Public => Value("No")
      case Path => Value(path)
      case Browseable => Value("Yes")
      case ReadOnly => Value("Yes")
      case WriteList => if writers.Nil? then First(tail, asked) else Value(Joined(writers))
      case GuestOk => Value("No")
      case ValidUsers => Value(Joined(valid))
      case CreateMask => Value("0660")
      case DirectoryMask => Value("0770")
      case ForceUser => Value(owner)
      case _ => First(tail, asked)
  {
    var a := Cons(Setting(ForceUser, owner), tail);
    var b := Cons(Setting(CreateMask, "0660"), Cons(Setting(DirectoryMask, "0770"), a));
    var access := Cons(Setting(GuestOk, "No"), Cons(Setting(ValidUsers, Joined(valid)), b));
    var c := if writers.Nil? then access else Cons(Setting(WriteList, Joined(writers)), access);
    var d := Cons(Setting(Path, path), Cons(Setting(Browseable, "Yes"), Cons(Setting(ReadOnly, "Yes"), c)));
    assert ProtectedSettings(path, owner, valid, writers, tail)
        == Cons(Setting(Comment, "CasaOS share " + Base(path)), Cons(Setting(Public, "No"), d));
    NextSays(Setting(Public, "No"), d, asked);
    NextSays(Setting(Browseable, "Yes"), Cons(Setting(ReadOnly, "Yes"), c), asked);
    NextSays(Setting(ReadOnly, "Yes"), c, asked);
    NextSays(Setting(WriteList, Joined(writers)), access, asked);
    NextSays(Setting(GuestOk, "No"), Cons(Setting(ValidUsers, Joined(valid)), b), asked);
    NextSays(Setting(ValidUsers, Joined(valid)), b, asked);
    NextSays(Setting(DirectoryMask, "0770"), a, asked);
    NextSays(Setting(ForceUser, owner), tail, asked);
  }

  lemma {:induction false} TailSays(on: bool, asked: Key)
    ensures asked != VfsObjects && asked != FruitTimeMachine ==> First(TimeMachineSettings(on), asked) == Nothing
    ensures First(TimeMachineSettings(on), FruitTimeMachine) == if on then Value("yes") else Nothing
  {
  }

  /** What the lines of the section say of one setting. */
  lemma {:induction false} LinesSay(share: Share, asked: Key)
    ensures
      var members, told := MemberList(share.members, share.username), ValueOf(SectionLines(share), KeyText(asked));
      var guest := share.username == [];
      match asked
      case Path => told == Value(share.path)
      case Public => told == Value(if guest then "Yes" else "No")
      case GuestOk => told == Value(if guest then "Yes" else "No")
      case ReadOnly => told == Value(if guest then "No" else "Yes")
      case CreateMask => told == Value(if guest then "0777" else "0660")
      case DirectoryMask => told == Value(if guest then "0777" else "0770")
      case ForceUser => told == Value(if guest then "root" else share.username)
      case ValidUsers => told == if guest then Nothing else Value(Joined(Names(members)))
      case WriteList => told == if guest || Writers(members).Nil? then Nothing else Value(Joined(Writers(members)))
      case FruitTimeMachine => told == if share.timeMachine then Value("yes") else Nothing
      case _ => true
  {
    var members, tail := MemberList(share.members, share.username), TimeMachineSettings(share.timeMachine);
    SectionSays(share, asked);
    TailSays(share.timeMachine, asked);
    GuestSays(share.path, tail, asked);
    ProtectedSays(share.path, share.username, Names(members), Writers(members), tail, asked);
  }

  predicate HasSpace(name: Text) {
    exists i :: 0 <= i < |name| && IsSpace(name[i])
  }

  predicate AreWords(words: List<Text>) {
    words.Cons? ==> !HasSpace(words.head) && AreWords(words.tail)
  }

  lemma {:induction false} FieldsAreWords(s: Text)
    ensures AreWords(Fields(s))
    decreases |s|
  {
    if s != [] {
      if IsSpace(s[0]) {
        FieldsAreWords(s[1..]);
      } else {
        var n := WordEnd(s);
        assert forall k :: 0 <= k < n ==> s[..n][k] == s[k];
        FieldsAreWords(s[n..]);
      }
    }
  }

  lemma {:induction false} WordIn(words: List<Text>, name: Text)
    requires AreWords(words) && In(name, words)
    ensures !HasSpace(name)
  {
    if words.head != name {
      WordIn(words.tail, name);
    }
  }

  lemma {:induction false} FieldsOfJoined(words: List<Text>, name: Text)
    requires AreWords(words) && name != []
    ensures In(name, Fields(Joined(words))) <==> In(name, words)
  {
    if words.Cons? {
      FieldsOfJoined(words.tail, name);
      if words.head != [] {
        FirstField(words.head, Joined(words.tail));
      } else {
        assert ([' '] + Joined(words.tail))[1..] == Joined(words.tail);
        assert [] + [' '] + Joined(words.tail) == [' '] + Joined(words.tail);
      }
    }
  }

  lemma {:induction false} NamesAre(members: List<Member>, name: Text)
    ensures In(name, Names(members)) <==> Mounts(members, name)
    ensures In(name, Writers(members)) <==> Writes(members, name)
    ensures Writes(members, name) ==> Mounts(members, name)
    ensures AreWords(Names(members)) ==> AreWords(Writers(members))
  {
    if members.Cons? {
      NamesAre(members.tail, name);
    }
  }

  /** Whether the section lets this name in, and lets it write, as Samba takes it: by the list of those who may connect,
      and, in a share that is otherwise read only, by the list of those who may write. */
  predicate LetsIn(lines: Lines, name: Text) {
    Lists(lines, "valid users", name)
  }

  predicate LetsWrite(lines: Lines, name: Text) {
    LetsIn(lines, name) && (ValueOf(lines, "read only") == Value("No") || Lists(lines, "write list", name))
  }

  lemma {:induction false} Grants(share: Share, name: Text)
    requires share.username != [] && name != [] && AreWords(Names(MemberList(share.members, share.username)))
    ensures
      var members, lines := MemberList(share.members, share.username), SectionLines(share);
      (LetsIn(lines, name) <==> Mounts(members, name)) && (LetsWrite(lines, name) <==> Writes(members, name))
  {
    var members := MemberList(share.members, share.username);
    LinesSay(share, ValidUsers);
    LinesSay(share, WriteList);
    LinesSay(share, ReadOnly);
    NamesAre(members, name);
    FieldsOfJoined(Names(members), name);
    FieldsOfJoined(Writers(members), name);
  }

  lemma {:induction false} SpacedName(words: List<Text>) returns (name: Text)
    requires !AreWords(words)
    ensures In(name, words) && HasSpace(name)
  {
    if HasSpace(words.head) {
      name := words.head;
    } else {
      name := SpacedName(words.tail);
    }
  }

  /** The section of a protected share lets in exactly its members, and lets write exactly those who have write access,
      if and only if no member's name has white space in it. */
  lemma {:induction false} GrantsExactly(share: Share)
    requires share.username != []
    ensures
      var members, lines := MemberList(share.members, share.username), SectionLines(share);
      (forall name :: name != [] ==>
        (LetsIn(lines, name) <==> Mounts(members, name)) && (LetsWrite(lines, name) <==> Writes(members, name)))
      <==> AreWords(Names(members))
  {
    var members, lines := MemberList(share.members, share.username), SectionLines(share);
    if AreWords(Names(members)) {
      forall name | name != []
        ensures (LetsIn(lines, name) <==> Mounts(members, name)) && (LetsWrite(lines, name) <==> Writes(members, name))
      {
        Grants(share, name);
      }
    } else {
      var name := SpacedName(Names(members));
      NamesAre(members, name);
      if LetsIn(lines, name) {
        var words := Fields(ValueOf(lines, "valid users").text);
        FieldsAreWords(ValueOf(lines, "valid users").text);
        WordIn(words, name);
      }
      assert name != [] && Mounts(members, name) && !LetsIn(lines, name);
    }
  }
}
