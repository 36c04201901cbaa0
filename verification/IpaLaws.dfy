/** Which member lists are those of an application archive, told in characters and numbers alone. */
module IpaLaws {
  import opened Paths
  import opened IpaMembers

  // ---------------------------------------------------------------------------------------------
  // Paths
  // ---------------------------------------------------------------------------------------------

  /** A part of a path: a composed, printable name that is neither a slash nor the current or the parent directory. */
  predicate PlainPart(text: Text, part: string) {
    && 1 <= |part| <= 1024 && part != "." && part != ".." && text.compose(part) == part
    && forall c :: c in part ==> c != '/' && c != '\\' && c != '\0' && 32 <= c as int && c as int != 127
  }

  /** A path as its parts. */
  predicate PlainPath(text: Text, parts: seq<string>) {
    && parts != [] && (forall i :: 0 <= i < |parts| ==> PlainPart(text, parts[i]))
    && text.encodedLength(Join(parts)) <= 1024 && text.compose(Join(parts)) == Join(parts)
  }

  lemma PlainIsComponent(text: Text, part: string)
    ensures PlainPart(text, part) <==> ComponentOk(text, part)
    ensures PlainPart(text, part) ==> Clean(part) && '/' !in part && part[|part| - 1] != '/' && part[0] != '/'
  {
    if ComponentOk(text, part) {
      forall c | c in part ensures c != '/' && c != '\\' && c != '\0' && 32 <= c as int && c as int != 127 {
        var i :| 0 <= i < |part| && part[i] == c;
      }
    }
    if PlainPart(text, part) {
      assert forall i :: 0 <= i < |part| ==> part[i] in part;
    }
  }

  /** The ends of a joined path are the ends of its first and last parts. */
  lemma {:induction false} JoinedEnds(parts: seq<string>)
    requires parts != [] && forall i :: 0 <= i < |parts| ==> parts[i] != ""
    ensures |Join(parts)| >= |parts[0]| && Join(parts)[..|parts[0]|] == parts[0]
    ensures Join(parts) != "" && Join(parts)[|Join(parts)| - 1] == parts[|parts| - 1][|parts[|parts| - 1]| - 1]
    decreases |parts|
  {
    if |parts| > 1 {
      JoinedEnds(parts[1..]);
      var s := parts[0] + "/" + Join(parts[1..]);
      assert s[..|parts[0]|] == parts[0];
    }
  }

  lemma PlainParts(text: Text, parts: seq<string>)
    requires PlainPath(text, parts)
    ensures Slashless(parts) && Split(Join(parts)) == parts
    ensures Clean(Join(parts)) && Join(parts) != ""
    ensures Join(parts)[0] != '/' && Join(parts)[|Join(parts)| - 1] != '/'
  {
    hide PlainPart, Clean, Join, Split;
    forall i | 0 <= i < |parts| ensures Clean(parts[i]) && '/' !in parts[i] && parts[i] != "" {
      PlainIsComponent(text, parts[i]);
    }
    JoinSplit(parts);
    JoinClean(parts);
    JoinedEnds(parts);
    PlainIsComponent(text, parts[0]);
    PlainIsComponent(text, parts[|parts| - 1]);
    assert Join(parts)[0] == Join(parts)[..|parts[0]|][0];
  }

  /** A path is accepted exactly when it is plain parts joined by slashes, composed and short enough. */
  lemma RelativeIsExact(text: Text, path: string)
    ensures RelativeOk(text, path) <==> exists parts :: PlainPath(text, parts) && path == Join(parts)
  {
    hide PlainPart, ComponentOk, Join, Split;
    if RelativeOk(text, path) {
      SplitJoin(path);
      forall i | 0 <= i < |Split(path)| ensures PlainPart(text, Split(path)[i]) { PlainIsComponent(text, Split(path)[i]); }
      assert PlainPath(text, Split(path));
    }
    if parts :| PlainPath(text, parts) && path == Join(parts) {
      PlainParts(text, parts);
      forall i | 0 <= i < |parts| ensures ComponentOk(text, parts[i]) { PlainIsComponent(text, parts[i]); }
    }
  }

  // ---------------------------------------------------------------------------------------------
  // One member
  // ---------------------------------------------------------------------------------------------

  /** The name of a member: a path, with a slash behind it when it is a directory. */
  ghost predicate Named(text: Text, filename: string, parts: seq<string>, directory: bool) {
    PlainPath(text, parts) && filename == Join(parts) + (if directory then "/" else "")
  }

  /** Its contents can be read, and are neither too many nor too far compressed. */
  predicate Contained(info: Info, directory: bool, maxBytes: nat) {
    && !info.encrypted && (info.method_ == 0 || info.method_ == 8) && info.fileSize <= maxBytes
    && (directory || info.fileSize <= 1000 * info.compressedSize)
  }

  /** From a Unix system, a nonzero mode is that of a directory or of a regular file, without set-id, sticky, group
      write and other write; other systems and a zero mode say nothing. */
  predicate Ordinary(info: Info, directory: bool) {
    info.createSystem == 3 && info.mode != 0 ==>
      && info.mode / 0x1000 % 0x10 == (if directory then 0x4 else 0x8)
      && info.mode / 0x800 % 2 == 0 && info.mode / 0x400 % 2 == 0 && info.mode / 0x200 % 2 == 0
      && info.mode / 0x10 % 2 == 0 && info.mode / 0x2 % 2 == 0
  }

  /** The payload directory, or something in it. */
  predicate Placed(parts: seq<string>, directory: bool) {
    parts != [] && parts[0] == "Payload" && (|parts| >= 2 || directory)
  }

  /** A name that is accepted is one path and one kind. */
  lemma NamesAreExact(text: Text, filename: string)
    ensures NameOk(text, filename) <==> exists parts, directory :: Named(text, filename, parts, directory)
  {
    hide RelativeOk, PlainPath, Join;
    if NameOk(text, filename) {
      var directory := filename[|filename| - 1] == '/';
      var path := if directory then filename[..|filename| - 1] else filename;
      RelativeIsExact(text, path);
      var parts :| PlainPath(text, parts) && path == Join(parts);
      assert Named(text, filename, parts, directory);
    }
    if parts, directory :| Named(text, filename, parts, directory) { NameIsRead(text, filename, parts, directory); }
  }

  lemma NameIsRead(text: Text, filename: string, parts: seq<string>, directory: bool)
    requires Named(text, filename, parts, directory)
    ensures NameOk(text, filename)
    ensures (filename[|filename| - 1] == '/') == directory
    ensures (if directory then filename[..|filename| - 1] else filename) == Join(parts) && Split(Join(parts)) == parts
    ensures parts != [] && Slashless(parts)
  {
    hide RelativeOk, PlainPath, Join, Split;
    PlainParts(text, parts);
    RelativeIsExact(text, Join(parts));
    var path := Join(parts);
    assert filename[0] == path[0] && filename[|path| - 1] == path[|path| - 1];
    assert directory ==> filename[..|filename| - 1] == path && filename[|filename| - 1] == '/';
    assert forall c :: c in filename ==> c in path || c == '/';
    assert !directory ==> filename == path;
  }

  lemma SizesAgree(m: Member, maxBytes: nat)
    ensures SizeOk(m, maxBytes) && !m.info.encrypted && m.info.method_ in {STORED, DEFLATED} <==>
            Contained(m.info, m.directory, maxBytes)
  {
  }

  lemma KindsAgree(m: Member)
    ensures KindOk(m) <==> Ordinary(m.info, m.directory)
  {
  }

  lemma OneName(parts: seq<string>)
    requires parts != [] && Slashless(parts)
    ensures Join(parts) == "Payload" <==> parts == ["Payload"]
  {
    hide Join, Split;
    if Join(parts) == "Payload" {
      JoinSplit(parts);
      PayloadIsOnePart();
    }
    JoinOne("Payload");
  }

  lemma PayloadIsOnePart()
    ensures Split("Payload") == ["Payload"]
  {
    JoinOne("Payload");
    JoinSplit(["Payload"]);
  }

  lemma PlacesAgree(m: Member, parts: seq<string>)
    requires parts != [] && Slashless(parts) && m.name == Join(parts) && Split(m.name) == parts
    ensures PlaceOk(m) <==> Placed(parts, m.directory)
  {
    hide Join, Split;
    OneName(parts);
  }

  /** A member with a proper name is read as that path and kind, and judged by what the archive says of it. */
  lemma MemberIsRead(text: Text, info: Info, parts: seq<string>, directory: bool, maxBytes: nat)
    requires Named(text, info.filename, parts, directory)
    ensures info.filename != "" && MemberOf(info) == Member(info, Join(parts), directory) && Split(Join(parts)) == parts
    ensures MemberOk(text, info, maxBytes) <==>
            Contained(info, directory, maxBytes) && Ordinary(info, directory) && Placed(parts, directory)
  {
    hide Named, SizeOk, KindOk, PlaceOk, Contained, Ordinary, Placed, Join, Split;
    NameIsRead(text, info.filename, parts, directory);
    var m := MemberOf(info);
    SizesAgree(m, maxBytes);
    KindsAgree(m);
    PlacesAgree(m, parts);
  }

  /** A member is accepted exactly when its name is a path of the payload, its contents can be read within the limits
      and its mode is ordinary. */
  lemma MemberIsExact(text: Text, info: Info, maxBytes: nat)
    ensures MemberOk(text, info, maxBytes) <==>
            exists parts, directory ::
              Named(text, info.filename, parts, directory) && Contained(info, directory, maxBytes)
              && Ordinary(info, directory) && Placed(parts, directory)
  {
    hide NameOk, Named, Contained, Ordinary, Placed, Join, Split;
    NamesAreExact(text, info.filename);
    forall parts, directory | Named(text, info.filename, parts, directory)
      ensures MemberOk(text, info, maxBytes) <==>
              Contained(info, directory, maxBytes) && Ordinary(info, directory) && Placed(parts, directory)
    {
      MemberIsRead(text, info, parts, directory, maxBytes);
    }
  }

  // ---------------------------------------------------------------------------------------------
  // The whole list
  // ---------------------------------------------------------------------------------------------

  /** The second part of a path is an application when its folded name ends in ".app". */
  ghost predicate NamesApp(text: Text, name: string, app: string) {
    exists parts, stem ::
      |parts| >= 2 && Slashless(parts) && Join(parts) == name && parts[1] == app && text.fold(app) == stem + ".app"
  }

  lemma CandidateIsExact(text: Text, m: Member, app: string)
    ensures app in Candidate(text, m) <==> NamesApp(text, m.name, app)
  {
    hide Join, Split;
    SplitJoin(m.name);
    var parts := Split(m.name);
    if app in Candidate(text, m) {
      var folded := text.fold(app);
      assert folded == folded[..|folded| - 4] + ".app";
    }
    if NamesApp(text, m.name, app) {
      var ps, stem :| |ps| >= 2 && Slashless(ps) && Join(ps) == m.name && ps[1] == app && text.fold(app) == stem + ".app";
      JoinSplit(ps);
      assert m.name != PAYLOAD by { OneName(ps); }
    }
  }

  /** The candidates of a list are the applications that its members name. */
  lemma {:induction false} CandidatesAreExact(text: Text, members: seq<Member>, app: string)
    ensures app in Candidates(text, members) <==> exists i :: 0 <= i < |members| && NamesApp(text, members[i].name, app)
    decreases |members|
  {
    if members != [] {
      var before := members[..|members| - 1];
      CandidatesAreExact(text, before, app);
      CandidateIsExact(text, members[|members| - 1], app);
      if i :| 0 <= i < |before| && NamesApp(text, before[i].name, app) { assert before[i] == members[i]; }
      if i :| 0 <= i < |members| && NamesApp(text, members[i].name, app) { assert i < |before| ==> before[i] == members[i]; }
    }
  }

  /** A place in the application: a member's own, or that of a directory its path goes through. */
  predicate Leads(m: Member, app: string, n: Node) {
    || (m.name == "Payload/" + app + "/" + n.path && n.directory == m.directory)
    || ("Payload/" + app + "/" + n.path + "/" <= m.name && n.directory)
  }

  lemma Below(app: string, path: string)
    ensures Prefix(app) == "Payload/" + app + "/" && Prefix(app) + path == "Payload/" + app + "/" + path
  {
  }

  /** The tree of a list is the members inside the application and the directories their paths go through. */
  lemma TreeIsExact(members: seq<Member>, app: string, n: Node)
    ensures n in Tree(members, app) <==> exists i :: 0 <= i < |members| && Leads(members[i], app, n)
  {
    hide Tree, Join, Split;
    Below(app, n.path);
    if n in Tree(members, app) {
      var m, count := NodeIsOf(members, app, n);
      NodeLeads(m, app, count);
    }
    if i :| 0 <= i < |members| && Leads(members[i], app, n) { LeadsToNode(members, app, members[i], n); }
  }

  lemma NodeLeads(m: Member, app: string, count: nat)
    requires Inside(m, app) && 1 <= count <= |Parts(m, app)|
    ensures Leads(m, app, NodeAt(Parts(m, app), m.directory, count))
  {
    hide Join, Split;
    var parts, rest := Parts(m, app), m.name[|Prefix(app)|..];
    SplitJoin(rest);
    assert m.name == Prefix(app) + rest;
    Below(app, rest);
    var path := Join(parts[..count]);
    Below(app, path);
    if count == |parts| {
      assert parts[..count] == parts;
    } else {
      JoinStarts(parts, count);
      assert m.name[..|Prefix(app) + path + "/"|] == Prefix(app) + path + "/";
    }
  }

  /** A joined path starts with the path of its first parts and a slash. */
  lemma {:induction false} JoinStarts(parts: seq<string>, count: nat)
    requires 1 <= count < |parts|
    ensures Join(parts[..count]) + "/" <= Join(parts)
    decreases count
  {
    if count > 1 {
      JoinStarts(parts[1..], count - 1);
      assert parts[..count][1..] == parts[1..][..count - 1];
      assert parts[0] + "/" + (Join(parts[1..][..count - 1]) + "/") == Join(parts[..count]) + "/";
    } else {
      assert parts[..1] == [parts[0]];
    }
  }

  lemma LeadsToNode(members: seq<Member>, app: string, m: Member, n: Node)
    requires m in members && Leads(m, app, n)
    ensures n in Tree(members, app)
  {
    hide Tree, Join, Split;
    Below(app, n.path);
    var rest := m.name[|Prefix(app)|..];
    assert m.name[..|Prefix(app)|] == Prefix(app) && Inside(m, app);
    MembersAreNodes(members, app, m);
    if m.name == Prefix(app) + n.path && n.directory == m.directory {
      assert n == Node(rest, m.directory);
    } else {
      assert rest[..|n.path|] == n.path && rest[|n.path|] == '/';
      TreeIsPrefixClosed(members, app, Node(rest, m.directory), |n.path|);
      assert n == Node(rest[..|n.path|], true);
    }
  }

  ghost predicate Recorded(text: Text, info: Info, m: Member, maxBytes: nat) {
    exists parts ::
      && Named(text, info.filename, parts, m.directory) && m == Member(info, Join(parts), m.directory)
      && Contained(info, m.directory, maxBytes) && Ordinary(info, m.directory) && Placed(parts, m.directory)
  }

  lemma RecordIsExact(text: Text, info: Info, m: Member, maxBytes: nat)
    ensures Recorded(text, info, m, maxBytes) <==> MemberOk(text, info, maxBytes) && m == MemberOf(info)
  {
    hide MemberOk, Named, Contained, Ordinary, Placed, Join, Split;
    MemberIsExact(text, info, maxBytes);
    if MemberOk(text, info, maxBytes) {
      var parts, directory :| Named(text, info.filename, parts, directory) && Contained(info, directory, maxBytes)
        && Ordinary(info, directory) && Placed(parts, directory);
      MemberIsRead(text, info, parts, directory, maxBytes);
    }
    if Recorded(text, info, m, maxBytes) {
      var parts :| Named(text, info.filename, parts, m.directory) && m == Member(info, Join(parts), m.directory)
        && Contained(info, m.directory, maxBytes) && Ordinary(info, m.directory) && Placed(parts, m.directory);
      MemberIsRead(text, info, parts, m.directory, maxBytes);
    }
  }

  /** No two places in the application differ only in case, or are a file and a directory. */
  ghost predicate PlacesApart(text: Text, members: seq<Member>, app: string) {
    forall i, j, a, b ::
      0 <= i < |members| && 0 <= j < |members| && Leads(members[i], app, a) && Leads(members[j], app, b) ==>
        text.fold(a.path) == text.fold(b.path) ==> a == b
  }

  lemma PlacesAreNodes(text: Text, members: seq<Member>, app: string)
    ensures PlacesApart(text, members, app) <==> Unambiguous(text, Tree(members, app))
  {
    hide Tree, Leads;
    if Unambiguous(text, Tree(members, app)) {
      forall i, j, a, b | 0 <= i < |members| && 0 <= j < |members| && Leads(members[i], app, a) && Leads(members[j], app, b)
        && text.fold(a.path) == text.fold(b.path) ensures a == b
      {
        TreeIsExact(members, app, a);
        TreeIsExact(members, app, b);
      }
    }
    if PlacesApart(text, members, app) {
      forall a, b | a in Tree(members, app) && b in Tree(members, app) && text.fold(a.path) == text.fold(b.path) ensures a == b {
        TreeIsExact(members, app, a);
        TreeIsExact(members, app, b);
      }
    }
  }

  /** The only application that the members name. */
  ghost predicate OnlyApp(text: Text, members: seq<Member>, app: string) {
    && (exists i :: 0 <= i < |members| && NamesApp(text, members[i].name, app))
    && (forall i, other :: 0 <= i < |members| && NamesApp(text, members[i].name, other) ==> other == app)
  }

  lemma OnlyAppIsExact(text: Text, members: seq<Member>, app: string)
    ensures OnlyApp(text, members, app) <==> Candidates(text, members) == {app}
  {
    hide NamesApp, Candidates;
    CandidatesAreExact(text, members, app);
    if OnlyApp(text, members, app) {
      forall other | other in Candidates(text, members) ensures other == app { CandidatesAreExact(text, members, other); }
    }
    if Candidates(text, members) == {app} {
      forall i, other | 0 <= i < |members| && NamesApp(text, members[i].name, other) ensures other == app {
        CandidatesAreExact(text, members, other);
      }
    }
  }

  lemma RecordsAreExact(text: Text, infos: seq<Info>, members: seq<Member>, maxBytes: nat)
    requires |members| == |infos|
    ensures (forall i :: 0 <= i < |infos| ==> Recorded(text, infos[i], members[i], maxBytes)) <==>
            forall i :: 0 <= i < |infos| ==> MemberOk(text, infos[i], maxBytes) && members[i] == MemberOf(infos[i])
  {
    hide Recorded;
    forall i | 0 <= i < |infos|
      ensures Recorded(text, infos[i], members[i], maxBytes) <==> MemberOk(text, infos[i], maxBytes) && members[i] == MemberOf(infos[i])
    {
      RecordIsExact(text, infos[i], members[i], maxBytes);
    }
  }

  /** Which lists are accepted: every member is recorded, no two names fold to the same, the files fit, one application
      is named, every member is the payload, that application or inside it, and the places in the application are
      apart and not too many. */
  lemma ListIsExact(text: Text, infos: seq<Info>, limits: Limits, members: seq<Member>, app: string)
    ensures Acceptable(text, infos, limits, members, app) <==>
            && 1 <= |infos| <= limits.maxEntries && |members| == |infos|
            && (forall i :: 0 <= i < |infos| ==> Recorded(text, infos[i], members[i], limits.maxBytes))
            && (forall i, j :: 0 <= i < j < |members| ==> text.fold(members[i].name) != text.fold(members[j].name))
            && TotalSize(members) <= limits.maxBytes
            && OnlyApp(text, members, app)
            && (forall i :: 0 <= i < |members| ==>
                  || members[i].name == "Payload"
                  || (members[i].name == "Payload/" + app && members[i].directory)
                  || "Payload/" + app + "/" <= members[i].name)
            && PlacesApart(text, members, app) && |Tree(members, app)| <= limits.maxEntries
  {
    hide MemberOk, Recorded, Tree, Unambiguous, PlacesApart, OnlyApp, Candidates, TotalSize, Folded;
    if |members| == |infos| { RecordsAreExact(text, infos, members, limits.maxBytes); }
    PlacesAreNodes(text, members, app);
    OnlyAppIsExact(text, members, app);
    if Unambiguous(text, Tree(members, app)) { FoldingKeepsCount(text, Tree(members, app)); }
    Below(app, "");
    forall i | 0 <= i < |members| ensures Belongs(members[i], app) <==>
      || members[i].name == "Payload"
      || (members[i].name == "Payload/" + app && members[i].directory)
      || "Payload/" + app + "/" <= members[i].name
    {
      Longer(members[i].name, app);
    }
  }

  lemma Longer(name: string, app: string)
    ensures name == "Payload/" + app || name == "Payload" ==> !(Prefix(app) <= name) && "Payload/" + app != "Payload"
  {
  }
}
