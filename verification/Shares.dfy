/** The rows of shared folders, and the column that lists who may mount one of them. */
module Shares {
  import opened TextLines

  datatype Member = Member(username: Text, readOnly: bool)

  datatype Share = Share(id: nat, anonymous: bool, username: Text, members: Text, timeMachine: bool, path: Text)

  /** A name that the column can hold: it has no white space and no colon. */
  predicate IsPlainName(name: Text) {
    forall i :: 0 <= i < |name| ==> !IsSpace(name[i]) && name[i] != ':'
  }

  // ---------------------------------------------------------------- the column

  function WordEnd(s: Text): (n: nat)
    ensures n <= |s| && (n < |s| ==> IsSpace(s[n]))
    ensures forall k :: 0 <= k < n ==> !IsSpace(s[k])
  {
    if s == [] || IsSpace(s[0]) then 0 else 1 + WordEnd(s[1..])
  }

  /** The words of a text, which white space separates. */
  function Fields(s: Text): List<Text>
    decreases |s|
  {
    if s == [] then Nil
    else if IsSpace(s[0]) then Fields(s[1..])
    else Cons(s[..WordEnd(s)], Fields(s[WordEnd(s)..]))
  }

  function ColonAt(s: Text): (n: nat)
    ensures n <= |s| && (n < |s| ==> s[n] == ':')
    ensures forall k :: 0 <= k < n ==> s[k] != ':'
  {
    if s == [] || s[0] == ':' then 0 else 1 + ColonAt(s[1..])
  }

  function ParsedMember(field: Text): Member {
    var n := ColonAt(field);
    Member(field[..n], n < |field| && field[n + 1..] == "ro")
  }

  function ParsedMembers(fields: List<Text>): List<Member> {
    match fields
    case Nil => Nil
    case Cons(field, rest) => Cons(ParsedMember(field), ParsedMembers(rest))
  }

  /** Those let in: whom the column lists or, when it lists nobody, the account the row names, if any. */
  function MemberList(members: Text, username: Text): List<Member> {
    var listed := ParsedMembers(Fields(members));
    if listed.Nil? && username != [] then Cons(Member(username, false), Nil) else listed
  }

  function FormatMember(member: Member): Text {
    member.username + if member.readOnly then ":ro" else ":rw"
  }

  function FormatMembers(members: List<Member>): Text {
    match members
    case Nil => []
    case Cons(member, rest) => if rest.Nil? then FormatMember(member) else FormatMember(member) + [' '] + FormatMembers(rest)
  }

  predicate ArePlain(members: List<Member>) {
    members.Cons? ==> IsPlainName(members.head.username) && ArePlain(members.tail)
  }

  /** Whether a name may mount the share, and whether it may write there. */
  predicate Mounts(members: List<Member>, name: Text) {
    members.Cons? && (members.head.username == name || Mounts(members.tail, name))
  }

  predicate Writes(members: List<Member>, name: Text) {
    members.Cons? && ((members.head.username == name && !members.head.readOnly) || Writes(members.tail, name))
  }

  // ---------------------------------------------------------------- the round trip

  lemma {:induction false} ParsesFormatted(member: Member)
    requires IsPlainName(member.username)
    ensures ParsedMember(FormatMember(member)) == member
  {
    var s, n := FormatMember(member), |member.username|;
    assert s[n] == ':' && forall k :: 0 <= k < n ==> s[k] == member.username[k];
    assert ColonAt(s) == n;
    assert s[..n] == member.username;
    assert s[n + 1..] == if member.readOnly then "ro" else "rw";
    assert "rw"[1] != "ro"[1];
  }

  lemma {:induction false} FirstField(word: Text, rest: Text)
    requires word != [] && forall k :: 0 <= k < |word| ==> !IsSpace(word[k])
    ensures Fields(word) == Cons(word, Nil)
    ensures Fields(word + [' '] + rest) == Cons(word, Fields(rest))
  {
    assert WordEnd(word) == |word| && word[..|word|] == word && word[|word|..] == [];
    var s := word + [' '] + rest;
    assert s[|word|] == ' ' && forall k :: 0 <= k < |word| ==> s[k] == word[k];
    assert WordEnd(s) == |word|;
    assert s[..|word|] == word && s[|word|..] == [' '] + rest && ([' '] + rest)[1..] == rest;
  }

  lemma {:induction false} FormattedIsWord(member: Member)
    requires IsPlainName(member.username)
    ensures FormatMember(member) != [] && forall k :: 0 <= k < |FormatMember(member)| ==> !IsSpace(FormatMember(member)[k])
  {
  }

  /** The column says which members it was written from, in order, when no name has white space or a colon. */
  lemma {:induction false} ParsesMembers(members: List<Member>)
    requires ArePlain(members)
    ensures ParsedMembers(Fields(FormatMembers(members))) == members
  {
    if members.Cons? {
      ParsesFormatted(members.head);
      FormattedIsWord(members.head);
      FirstField(FormatMember(members.head), FormatMembers(members.tail));
      ParsesMembers(members.tail);
    }
  }

  lemma {:induction false} ColonPrefix(s: Text, n: nat)
    requires n <= ColonAt(s) && forall k :: 0 <= k < |s| ==> !IsSpace(s[k])
    ensures IsPlainName(s[..n])
  {
  }

  /** Every name the column lists is one it can hold. */
  lemma {:induction false} FieldsArePlain(s: Text)
    ensures ArePlain(ParsedMembers(Fields(s)))
    decreases |s|
  {
    if s == [] {
    } else if IsSpace(s[0]) {
      FieldsArePlain(s[1..]);
    } else {
      var n := WordEnd(s);
      var word := s[..n];
      assert forall k :: 0 <= k < |word| ==> word[k] == s[k];
      ColonPrefix(word, ColonAt(word));
      FieldsArePlain(s[n..]);
    }
  }

  lemma {:induction false} HasField(s: Text, i: nat)
    requires i < |s| && !IsSpace(s[i])
    ensures Fields(s).Cons?
    decreases |s|
  {
    if IsSpace(s[0]) {
      HasField(s[1..], i - 1);
    }
  }

  lemma {:induction false} FormattedHasField(members: List<Member>)
    requires members.Cons?
    ensures ParsedMembers(Fields(FormatMembers(members))).Cons?
  {
    var n := |members.head.username|;
    assert FormatMember(members.head)[n] == ':' && FormatMembers(members)[n] == ':';
    HasField(FormatMembers(members), n);
  }

  /** Members that are written to the column are read back, in order, exactly when the column can hold their names
      and, with none of them, the row has no account to fall back on. */
  lemma {:induction false} MembersRoundTrip(members: List<Member>, username: Text)
    ensures MemberList(FormatMembers(members), username) == members
       <==> ArePlain(members) && (members.Nil? ==> username == [])
  {
    if members.Cons? {
      FormattedHasField(members);
    }
    if ArePlain(members) {
      ParsesMembers(members);
    }
    FieldsArePlain(FormatMembers(members));
  }

  /** A list that was read can be written back, unless it is the account of a row without members and has a name
      that the column cannot hold. */
  lemma {:induction false} MemberListIsPlain(members: Text, username: Text)
    ensures ArePlain(MemberList(members, username)) <==> ParsedMembers(Fields(members)).Cons? || IsPlainName(username)
  {
    FieldsArePlain(members);
  }

  lemma {:induction false} WordHasNoColon(word: Text)
    requires IsPlainName(word)
    ensures ParsedMember(word) == Member(word, false)
  {
    assert ColonAt(word) == |word| && word[..|word|] == word;
  }

  lemma {:induction false} TwoFields(a: Text, b: Text)
    requires IsPlainName(a) && IsPlainName(b) && a != []
    ensures
      var field := FormatMember(Member(b, false));
      && Fields(a + [' '] + field) == Cons(a, Cons(field, Nil))
      && ParsedMember(a) == Member(a, false) && ParsedMember(field) == Member(b, false)
  {
    var field := FormatMember(Member(b, false));
    FirstField(a, field);
    FormattedIsWord(Member(b, false));
    FirstField(field, []);
    WordHasNoColon(a);
    ParsesFormatted(Member(b, false));
  }

  /** An account whose name is two words is not read back: a row that is merged names two others. */
  lemma {:induction false} SpacedNameIsLost(a: Text, b: Text)
    requires IsPlainName(a) && IsPlainName(b) && a != [] && b != []
    ensures
      var name := a + [' '] + b;
      MemberList(FormatMembers(MemberList([], name)), name) == Cons(Member(a, false), Cons(Member(b, false), Nil))
  {
    var name, field := a + [' '] + b, FormatMember(Member(b, false));
    var column := a + [' '] + field;
    TwoFields(a, b);
    assert MemberList([], name) == Cons(Member(name, false), Nil);
    assert FormatMembers(Cons(Member(name, false), Nil)) == FormatMember(Member(name, false)) == column;
    assert ParsedMembers(Cons(a, Cons(field, Nil))) == Cons(ParsedMember(a), Cons(ParsedMember(field), Nil));
  }
}
