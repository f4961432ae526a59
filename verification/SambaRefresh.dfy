/** What a change of the shares' configuration means for the clients that are connected: which shares changed,
    whether the Time Machine shares did, and whose sessions end.

    How a name is put into lower case is a parameter, `lower`. */
module SambaRefresh {
  import opened TextLines
  import opened Shares
  import opened SambaConfig

  // ---------------------------------------------------------------- the round trip

  function NameOf(share: Share): Text {
    Trim(Base(share.path))
  }

  function KeyOf(share: Share, lower: Text -> Text): Text {
    lower(NameOf(share))
  }

  /** The entry a share's section makes. */
  function EntryFor(share: Share): Entry {
    Entry(NameOf(share), Written(SectionOf(share).lines), share.timeMachine)
  }

  predicate AllNamed(shares: List<Share>) {
    shares.Cons? ==> NameOf(shares.head) != [] && AllNamed(shares.tail)
  }

  predicate HasKey(shares: List<Share>, key: Text, lower: Text -> Text) {
    shares.Cons? && (KeyOf(shares.head, lower) == key || HasKey(shares.tail, key, lower))
  }

  predicate DistinctKeys(shares: List<Share>, lower: Text -> Text) {
    shares.Cons? ==> !HasKey(shares.tail, KeyOf(shares.head, lower), lower) && DistinctKeys(shares.tail, lower)
  }

  /** Every line of every section is one the scanner takes. */
  predicate AllSectionsFit(shares: List<Share>) {
    shares.Cons? ==> AllFit(SectionLines(shares.head)) && AllSectionsFit(shares.tail)
  }

  /** The entries of the shares, by key. */
  function Entries(shares: List<Share>, lower: Text -> Text): map<Text, Entry> {
    match shares
    case Nil => map[]
    case Cons(share, rest) => map[KeyOf(share, lower) := EntryFor(share)] + Entries(rest, lower)
  }

  predicate TurnsOn(settings: Settings) {
    settings.Cons? && (settings.head == Setting(FruitTimeMachine, "yes") || TurnsOn(settings.tail))
  }

  predicate NamesFruit(settings: Settings) {
    settings.Cons? && (settings.head.key == FruitTimeMachine || NamesFruit(settings.tail))
  }

  lemma {:induction false} TimeMachineIsSet(share: Share)
    ensures TurnsOn(SettingsOf(share)) == NamesFruit(SettingsOf(share)) == share.timeMachine
  {
    var members, extra := MemberList(share.members, share.username), TimeMachineSettings(share.timeMachine);
    assert TurnsOn(extra) == NamesFruit(extra) == share.timeMachine;
    GuestPassesOn(share.path, extra);
    ProtectedPassesOn(share.path, share.username, Names(members), Writers(members), extra);
  }

  predicate SameFlag(settings: Settings, tail: Settings) {
    TurnsOn(settings) == TurnsOn(tail) && NamesFruit(settings) == NamesFruit(tail)
  }

  function With(key: Key, value: Text, rest: Settings, ghost tail: Settings): (settings: Settings)
    requires key != FruitTimeMachine && SameFlag(rest, tail)
    ensures settings == Cons(Setting(key, value), rest) && SameFlag(settings, tail)
  {
    Cons(Setting(key, value), rest)
  }

  lemma {:induction false} GuestPassesOn(path: Text, tail: Settings)
    ensures SameFlag(GuestSettings(path, tail), tail)
  {
    var masks := With(CreateMask, "0777", With(DirectoryMask, "0777", With(ForceUser, "root", tail, tail), tail), tail);
    var open := With(Browseable, "Yes", With(ReadOnly, "No", With(GuestOk, "Yes", masks, tail), tail), tail);
    var all := With(Comment, "CasaOS share " + Base(path), With(Public, "Yes", With(Path, path, open, tail), tail), tail);
  }

  lemma {:induction false} ProtectedPassesOn(path: Text, owner: Text, valid: List<Text>, writers: List<Text>, tail: Settings)
    ensures SameFlag(ProtectedSettings(path, owner, valid, writers, tail), tail)
  {
    var masks := With(CreateMask, "0660", With(DirectoryMask, "0770", With(ForceUser, owner, tail, tail), tail), tail);
    var access := With(GuestOk, "No", With(ValidUsers, Joined(valid), masks, tail), tail);
    var more := if writers.Nil? then access else With(WriteList, Joined(writers), access, tail);
    var shut := With(Path, path, With(Browseable, "Yes", With(ReadOnly, "Yes", more, tail), tail), tail);
    var all := With(Comment, "CasaOS share " + Base(path), With(Public, "No", shut, tail), tail);
  }

  lemma {:induction false} FruitLine(settings: Settings)
    ensures TurnsOn(settings) ==> In(TIME_MACHINE, Trimmed(Rendered(settings)))
    ensures In(TIME_MACHINE, Trimmed(Rendered(settings))) ==> NamesFruit(settings)
  {
    if settings.Cons? {
      TrimmedSetting(settings.head.key, settings.head.value);
      TimeMachineLine();
      FruitLine(settings.tail);
    }
  }

  lemma {:induction false} TrimmedIsOneLine(lines: Lines)
    requires AllOneLine(lines)
    ensures AllOneLine(Trimmed(lines)) && AllOneLine(Fitting(lines))
  {
    if lines.Cons? {
      TrimIsPart(lines.head);
      TrimmedIsOneLine(lines.tail);
    }
  }

  lemma {:induction false} SectionIsOneLine(share: Share)
    requires HasNoNewline(share)
    ensures OneLine(Trim(Header(share))) && AllOneLine(Trimmed(Rendered(SettingsOf(share)))) && AllOneLine(Fitting(Rendered(SettingsOf(share))))
  {
    BaseIsOneLine(share.path);
    TrimIsPart(Header(share));
    SettingsAreOneLine(share);
    RenderedIsOneLine(SettingsOf(share), Nil);
    AppendNil(Rendered(SettingsOf(share)));
    TrimmedIsOneLine(Rendered(SettingsOf(share)));
  }

  /** The entry of a share's section has the share's Time Machine flag. */
  lemma {:induction false} ReadsFlag(share: Share)
    requires HasNoNewline(share)
    ensures EntryOf(NameOf(share), Written(SectionOf(share).lines)) == EntryFor(share)
  {
    SectionIsOneLine(share);
    TimeMachineLine();
    FindsLine(Trim(Header(share)), Trimmed(Rendered(SettingsOf(share))), TIME_MACHINE);
    FruitLine(SettingsOf(share));
    TimeMachineIsSet(share);
  }

  lemma {:induction false} TableOfShares(shares: List<Share>, lower: Text -> Text)
    requires HaveNoNewline(shares) && AllNamed(shares) && AllSectionsFit(shares)
    ensures Table(Expected(shares), lower) == Entries(shares, lower)
  {
    if shares.Cons? {
      ReadsFlag(shares.head);
      TableOfShares(shares.tail, lower);
    }
  }

  lemma {:induction false} EntryOfShare(shares: List<Share>, share: Share, lower: Text -> Text)
    requires DistinctKeys(shares, lower) && In(share, shares)
    ensures HasKey(shares, KeyOf(share, lower), lower)
    ensures KeyOf(share, lower) in Entries(shares, lower) && Entries(shares, lower)[KeyOf(share, lower)] == EntryFor(share)
  {
    EntriesHaveKeys(shares.tail, KeyOf(share, lower), lower);
    if shares.head != share || In(share, shares.tail) {
      EntryOfShare(shares.tail, share, lower);
    }
  }

  lemma {:induction false} EntriesHaveKeys(shares: List<Share>, key: Text, lower: Text -> Text)
    ensures key in Entries(shares, lower) <==> HasKey(shares, key, lower)
    ensures HasKey(shares, key, lower) ==> exists share :: In(share, shares) && KeyOf(share, lower) == key
  {
    if shares.Cons? {
      EntriesHaveKeys(shares.tail, key, lower);
      if HasKey(shares.tail, key, lower) {
        var share :| In(share, shares.tail) && KeyOf(share, lower) == key;
        assert In(share, shares);
      } else if HasKey(shares, key, lower) {
        assert In(shares.head, shares);
      }
    }
  }

  /** The entry of a share is there, and right. */
  predicate IsReadBack(table: map<Text, Entry>, share: Share, lower: Text -> Text) {
    KeyOf(share, lower) in table && table[KeyOf(share, lower)] == EntryFor(share)
  }

  ghost predicate AllReadBack(table: map<Text, Entry>, shares: List<Share>, lower: Text -> Text) {
    && (forall share :: In(share, shares) ==> IsReadBack(table, share, lower))
    && forall key :: key in table ==> exists share :: In(share, shares) && KeyOf(share, lower) == key
  }

  lemma {:induction false} CutIsShorter(settings: Settings)
    requires !AllFit(Rendered(settings))
    ensures Fitting(Rendered(settings)) != Trimmed(Rendered(settings))
  {
    if |Rendered(settings).head| < MAX {
      CutIsShorter(settings.tail);
    }
  }

  /** A share with a line that is too long is not read back. */
  lemma {:induction false} LongIsLost(share: Share, rest: List<Share>, lower: Text -> Text)
    requires HasNoNewline(share) && NameOf(share) != [] && !AllFit(SectionLines(share))
    ensures !IsReadBack(Table(Expected(Cons(share, rest)), lower), share, lower)
  {
    var settings := SettingsOf(share);
    SectionFits(settings);
    var lines := Append(Rendered(settings), Cons([], Nil));
    assert SectionLines(share).tail == Cons(Header(share), lines);
    if |Header(share)| < MAX {
      CutIsShorter(settings);
      SectionIsOneLine(share);
      var cut := Cons(Trim(Header(share)), Fitting(Rendered(settings)));
      assert Expected(Cons(share, rest)) == Cons(Section(NameOf(share), cut), Nil);
      if Written(cut) == Written(SectionOf(share).lines) {
        WrittenInjective(cut, SectionOf(share).lines);
      }
    }
  }

  lemma {:induction false} SomeIsLost(shares: List<Share>, lower: Text -> Text) returns (share: Share)
    requires HaveNoNewline(shares) && AllNamed(shares) && DistinctKeys(shares, lower) && !AllSectionsFit(shares)
    ensures In(share, shares) && !IsReadBack(Table(Expected(shares), lower), share, lower)
  {
    if AllFit(SectionLines(shares.head)) {
      share := SomeIsLost(shares.tail, lower);
      EntriesHaveShare(shares.tail, share, lower);
    } else {
      share := shares.head;
      LongIsLost(share, shares.tail, lower);
    }
  }

  lemma {:induction false} EntriesHaveShare(shares: List<Share>, share: Share, lower: Text -> Text)
    requires In(share, shares)
    ensures HasKey(shares, KeyOf(share, lower), lower)
  {
    if shares.head != share {
      EntriesHaveShare(shares.tail, share, lower);
    }
  }

  /** Reading back a configuration of shares with names of their own gives each share its entry, with its name,
      its section and its flag, and no other: exactly when every line of it is one the scanner takes. */
  lemma {:induction false} ReadsBackExactly(shares: List<Share>, lower: Text -> Text)
    requires HaveNoNewline(shares) && AllNamed(shares) && DistinctKeys(shares, lower)
    ensures AllReadBack(Parsed(Config(shares), lower), shares, lower) <==> AllSectionsFit(shares)
  {
    PrintedParses(shares);
    if AllSectionsFit(shares) {
      TableOfShares(shares, lower);
      forall share | In(share, shares)
        ensures IsReadBack(Entries(shares, lower), share, lower)
      {
        EntryOfShare(shares, share, lower);
      }
      forall key | key in Entries(shares, lower)
        ensures exists share :: In(share, shares) && KeyOf(share, lower) == key
      {
        EntriesHaveKeys(shares, key, lower);
      }
    } else {
      var share := SomeIsLost(shares, lower);
    }
  }

  // ---------------------------------------------------------------- what changed

  predicate IsChanged(previous: map<Text, Entry>, current: map<Text, Entry>, key: Text)
    requires key in previous
  {
    key !in current || current[key].text != previous[key].text
  }

  function ChangedNames(previous: map<Text, Entry>, current: map<Text, Entry>): set<Text> {
    set key | key in previous && IsChanged(previous, current, key) :: previous[key].name
  }

  /** The names of the shares whose section differs or is gone. Those added are not among them. */
  method ChangedSambaShares(before: Text, after: Text, lower: Text -> Text) returns (changed: set<Text>)
    ensures changed == ChangedNames(Parsed(before, lower), Parsed(after, lower))
  {
    var previous := SambaShareSections(before, lower);
    var current := SambaShareSections(after, lower);
    changed := {};
    var keys := previous.Keys;
    while keys != {}
      invariant keys <= previous.Keys
      invariant changed == set key | key in previous && key !in keys && IsChanged(previous, current, key) :: previous[key].name
    {
      var key :| key in keys;
      if IsChanged(previous, current, key) {
        changed := changed + {previous[key].name};
      }
      keys := keys - {key};
    }
  }

  function TimeMachineKeys(sections: map<Text, Entry>): set<Text> {
    set key | key in sections && sections[key].timeMachine
  }

  /** Whether a Time Machine share was added or removed, or a share's flag turned. */
  method TimeMachineSharesChanged(before: Text, after: Text, lower: Text -> Text) returns (changed: bool)
    ensures changed <==> TimeMachineKeys(Parsed(before, lower)) != TimeMachineKeys(Parsed(after, lower))
  {
    var previous := SambaShareSections(before, lower);
    var current := SambaShareSections(after, lower);
    var keys := previous.Keys;
    while keys != {}
      invariant keys <= previous.Keys
      invariant forall key :: key in previous && key !in keys ==> (key in TimeMachineKeys(previous) <==> key in TimeMachineKeys(current))
    {
      var key :| key in keys;
      if previous[key].timeMachine != (key in current && current[key].timeMachine) {
        assert key in TimeMachineKeys(previous) <==> key !in TimeMachineKeys(current);
        return true;
      }
      keys := keys - {key};
    }
    keys := current.Keys;
    while keys != {}
      invariant keys <= current.Keys
      invariant forall key :: key in current && key !in keys && key in TimeMachineKeys(current) ==> key in TimeMachineKeys(previous)
    {
      var key :| key in keys;
      if current[key].timeMachine && !(key in previous && previous[key].timeMachine) {
        assert key in TimeMachineKeys(current) && key !in TimeMachineKeys(previous);
        return true;
      }
      keys := keys - {key};
    }
    return false;
  }

  /** Shares whose configuration is read back. */
  ghost predicate AreGood(shares: List<Share>, lower: Text -> Text) {
    HaveNoNewline(shares) && AllNamed(shares) && DistinctKeys(shares, lower) && AllSectionsFit(shares)
  }

  predicate SameSection(a: Share, b: Share) {
    SectionOf(a).lines == SectionOf(b).lines
  }

  /** Whether the share of this one's name still has this one's section. */
  ghost predicate StaysAsItWas(share: Share, after: List<Share>, lower: Text -> Text) {
    exists next :: In(next, after) && KeyOf(next, lower) == KeyOf(share, lower) && SameSection(share, next)
  }

  lemma {:induction false} InHasNoNewline(shares: List<Share>, share: Share)
    requires HaveNoNewline(shares) && In(share, shares)
    ensures HasNoNewline(share)
  {
    if shares.head != share {
      InHasNoNewline(shares.tail, share);
    }
  }

  lemma {:induction false} SameTextSameSection(a: Share, b: Share)
    requires HasNoNewline(a) && HasNoNewline(b)
    ensures EntryFor(a).text == EntryFor(b).text <==> SameSection(a, b)
  {
    SectionIsOneLine(a);
    SectionIsOneLine(b);
    if EntryFor(a).text == EntryFor(b).text {
      WrittenInjective(SectionOf(a).lines, SectionOf(b).lines);
    }
  }

  lemma {:induction false} ChangedIsNotKept(before: List<Share>, after: List<Share>, share: Share, lower: Text -> Text)
    requires AreGood(before, lower) && AreGood(after, lower) && In(share, before)
    ensures
      var previous, current := Parsed(Config(before), lower), Parsed(Config(after), lower);
      KeyOf(share, lower) in previous && (IsChanged(previous, current, KeyOf(share, lower)) <==> !StaysAsItWas(share, after, lower))
  {
    ReadsBackExactly(before, lower);
    ReadsBackExactly(after, lower);
    var previous, current := Parsed(Config(before), lower), Parsed(Config(after), lower);
    var key := KeyOf(share, lower);
    assert IsReadBack(previous, share, lower);
    InHasNoNewline(before, share);
    forall next | In(next, after) && KeyOf(next, lower) == key
      ensures key in current && (current[key].text != previous[key].text <==> !SameSection(share, next))
    {
      assert IsReadBack(current, next, lower);
      InHasNoNewline(after, next);
      SameTextSameSection(share, next);
    }
    if key in current {
      var next :| In(next, after) && KeyOf(next, lower) == key;
    }
  }

  /** Of two written configurations the names told are those of the shares whose section changed or went: never
      of one that was added or stays as it was. */
  lemma {:induction false} ChangedNamesExactly(before: List<Share>, after: List<Share>, name: Text, lower: Text -> Text)
    requires AreGood(before, lower) && AreGood(after, lower)
    ensures name in ChangedNames(Parsed(Config(before), lower), Parsed(Config(after), lower))
       <==> exists share :: In(share, before) && NameOf(share) == name && !StaysAsItWas(share, after, lower)
  {
    var previous, current := Parsed(Config(before), lower), Parsed(Config(after), lower);
    ReadsBackExactly(before, lower);
    if name in ChangedNames(previous, current) {
      var key :| key in previous && IsChanged(previous, current, key) && previous[key].name == name;
      var share :| In(share, before) && KeyOf(share, lower) == key;
      assert IsReadBack(previous, share, lower);
      ChangedIsNotKept(before, after, share, lower);
    }
    if share :| In(share, before) && NameOf(share) == name && !StaysAsItWas(share, after, lower) {
      assert IsReadBack(previous, share, lower);
      ChangedIsNotKept(before, after, share, lower);
    }
  }

  /** And the keys of Time Machine shares are those of the shares with the flag. */
  lemma {:induction false} TimeMachineKeysExactly(shares: List<Share>, key: Text, lower: Text -> Text)
    requires AreGood(shares, lower)
    ensures key in TimeMachineKeys(Parsed(Config(shares), lower))
       <==> exists share :: In(share, shares) && KeyOf(share, lower) == key && share.timeMachine
  {
    ReadsBackExactly(shares, lower);
    var table := Parsed(Config(shares), lower);
    if key in TimeMachineKeys(table) {
      var share :| In(share, shares) && KeyOf(share, lower) == key;
      assert IsReadBack(table, share, lower);
    }
    if share :| In(share, shares) && KeyOf(share, lower) == key && share.timeMachine {
      assert IsReadBack(table, share, lower);
    }
  }

  // ---------------------------------------------------------------- the sections as they are rendered

  /** No value ends in white space, so trimming takes nothing off the lines. */
  predicate AreTidy(settings: Settings) {
    settings.Cons? ==>
      settings.head.value != [] && !IsSpace(settings.head.value[|settings.head.value| - 1]) && AreTidy(settings.tail)
  }

  lemma {:induction false} TidyIsTrimmed(settings: Settings)
    requires AreTidy(settings)
    ensures Trimmed(Rendered(settings)) == Rendered(settings)
  {
    if settings.Cons? {
      var line := LineOf(settings.head.key, settings.head.value);
      KeyTextEnds(settings.head.key);
      assert line[|line| - 1] == settings.head.value[|settings.head.value| - 1] && line[0] == KeyText(settings.head.key)[0];
      TrimKeeps(line, |line|);
      TidyIsTrimmed(settings.tail);
    }
  }

  lemma {:induction false} AppendedIsNotNil<T>(a: List<T>, x: T)
    ensures Append(a, Cons(x, Nil)) != Nil
  {
  }

  lemma {:induction false} AppendInjective<T>(a: List<T>, b: List<T>, x: T)
    requires Append(a, Cons(x, Nil)) == Append(b, Cons(x, Nil))
    ensures a == b
  {
    if a.Cons? && b.Cons? {
      AppendInjective(a.tail, b.tail, x);
    } else {
      AppendedIsNotNil(if a.Cons? then a.tail else Nil, x);
      AppendedIsNotNil(if b.Cons? then b.tail else Nil, x);
    }
  }

  /** Then the sections compared are the same exactly when the ones rendered are. */
  lemma {:induction false} SameAsRendered(a: Share, b: Share)
    requires AreTidy(SettingsOf(a)) && AreTidy(SettingsOf(b))
    ensures SameSection(a, b) <==> SectionLines(a) == SectionLines(b)
  {
    TidyIsTrimmed(SettingsOf(a));
    TidyIsTrimmed(SettingsOf(b));
    TrimmedHeader(Base(a.path));
    TrimmedHeader(Base(b.path));
    if SectionLines(a) == SectionLines(b) {
      AppendInjective(Rendered(SettingsOf(a)), Rendered(SettingsOf(b)), []);
    }
  }

  // ---------------------------------------------------------------- the server

  /** The Samba server: the configuration it has taken, and the shares its clients are connected to. */
  class Server {
    var loaded: Text
    var sessions: set<Text>

    /** Has the server take a new configuration. `restarts`, `reloads` and `closes` say which commands work. */
    method Refresh(mainChanged: bool, canReload: bool, before: Text, after: Text, lower: Text -> Text,
                   restarts: bool, reloads: bool, closes: Text -> bool)
      returns (ok: bool)
      modifies this
      ensures
        var changed := ChangedNames(Parsed(before, lower), Parsed(after, lower));
        var soft := !mainChanged && canReload && TimeMachineKeys(Parsed(before, lower)) == TimeMachineKeys(Parsed(after, lower))
                    && reloads && forall name :: name in changed ==> closes(name);
        && ok == (soft || restarts)
        && (ok ==> loaded == after && sessions !! changed)
        && (soft ==> sessions == old(sessions) - changed)
        && (!soft && ok ==> sessions == {})
        && (!ok ==> old(sessions) - changed <= sessions <= old(sessions))
    {
      var turned := false;
      if !mainChanged && canReload {
        turned := TimeMachineSharesChanged(before, after, lower);
      }
      if !mainChanged && canReload && !turned {
        var closing := ChangedSambaShares(before, after, lower);
        if reloads {
          loaded := after;
          ghost var changed := closing;
          while closing != {}
            invariant closing <= changed && sessions == old(sessions) - (changed - closing)
            invariant loaded == after
            invariant forall name :: name in changed - closing ==> closes(name)
            decreases |closing|
          {
            var name :| name in closing;
            if !closes(name) {
              break;
            }
            sessions := sessions - {name};
            closing := closing - {name};
          }
          if closing == {} {
            return true;
          }
        }
      }
      if restarts {
        loaded, sessions := after, {};
      }
      return restarts;
    }
  }
}
