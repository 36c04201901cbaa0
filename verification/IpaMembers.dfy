/** The check of the member list of an application archive: one application, a tree without conflicts, and
    bounded sizes. */
module IpaMembers {
  import opened Wrappers
  import opened Paths

  const STORED: nat := 0
  const DEFLATED: nat := 8
  const MAX_COMPRESSION_RATIO: nat := 1000
  const UNIX: nat := 3
  const PAYLOAD := "Payload"

  /** What an archive says of a member; `mode` is the upper half of its external attributes. */
  datatype Info = Info(
    filename: string, encrypted: bool, method_: nat, fileSize: nat, compressedSize: nat, createSystem: nat, mode: nat)

  datatype Member = Member(info: Info, name: string, directory: bool)

  datatype Node = Node(path: string, directory: bool)

  datatype Limits = Limits(maxBytes: nat, maxEntries: nat)

  // ---------------------------------------------------------------------------------------------
  // One member
  // ---------------------------------------------------------------------------------------------

  function MemberOf(info: Info): Member
    requires info.filename != ""
  {
    var f := info.filename;
    if f[|f| - 1] == '/' then Member(info, f[..|f| - 1], true) else Member(info, f, false)
  }

  predicate NameOk(text: Text, filename: string) {
    && filename != "" && '\0' !in filename && filename[0] != '/' && '\\' !in filename
    && RelativeOk(text, if filename[|filename| - 1] == '/' then filename[..|filename| - 1] else filename)
  }

  function FileType(mode: nat): nat {
    mode / 0x1000 % 16
  }

  const LINK: nat := 10
  const DIRECTORY: nat := 4
  const REGULAR: nat := 8

  predicate Bit(mode: nat, n: nat)
    requires n > 0
  {
    mode / n % 2 == 1
  }

  /** Written by the group or others, or set-id or sticky. */
  predicate UnsafeMode(mode: nat) {
    Bit(mode, 0x10) || Bit(mode, 0x2) || Bit(mode, 0x800) || Bit(mode, 0x400) || Bit(mode, 0x200)
  }

  predicate KindOk(m: Member) {
    && !(m.info.createSystem == UNIX && FileType(m.info.mode) == LINK)
    && (m.info.createSystem == UNIX && m.info.mode != 0 ==>
          FileType(m.info.mode) == (if m.directory then DIRECTORY else REGULAR) && !UnsafeMode(m.info.mode))
  }

  predicate SizeOk(m: Member, maxBytes: nat) {
    && m.info.fileSize <= maxBytes
    && (!m.directory ==>
          if m.info.compressedSize == 0 then m.info.fileSize == 0
          else m.info.fileSize <= m.info.compressedSize * MAX_COMPRESSION_RATIO)
  }

  predicate PlaceOk(m: Member) {
    if m.name == PAYLOAD then m.directory else Split(m.name)[0] == PAYLOAD && |Split(m.name)| >= 2
  }

  /** Everything that is checked of a member alone. */
  predicate MemberOk(text: Text, info: Info, maxBytes: nat) {
    && NameOk(text, info.filename)
    && var m := MemberOf(info);
       && !info.encrypted && info.method_ in {STORED, DEFLATED} && SizeOk(m, maxBytes) && KindOk(m) && PlaceOk(m)
  }

  // ---------------------------------------------------------------------------------------------
  // All members
  // ---------------------------------------------------------------------------------------------

  predicate EndsWithApp(text: Text, part: string) {
    var folded := text.fold(part);
    |folded| >= 4 && folded[|folded| - 4..] == ".app"
  }

  /** The application that a member's path names. */
  function Candidate(text: Text, m: Member): set<string> {
    if m.name != PAYLOAD && |Split(m.name)| >= 2 && EndsWithApp(text, Split(m.name)[1]) then {Split(m.name)[1]} else {}
  }

  function Candidates(text: Text, members: seq<Member>): set<string> {
    if members == [] then {} else Candidates(text, members[..|members| - 1]) + Candidate(text, members[|members| - 1])
  }

  /** The folded names of the members. */
  function FoldedNames(text: Text, members: seq<Member>): set<string> {
    if members == [] then {} else FoldedNames(text, members[..|members| - 1]) + {text.fold(members[|members| - 1].name)}
  }

  function Prefix(app: string): string {
    PAYLOAD + "/" + app + "/"
  }

  predicate Inside(m: Member, app: string) {
    Prefix(app) <= m.name
  }

  /** The payload, the application, or something inside the application. */
  predicate Belongs(m: Member, app: string) {
    (m.name == PAYLOAD || m.name == PAYLOAD + "/" + app || Inside(m, app)) && (m.name == PAYLOAD + "/" + app ==> m.directory)
  }

  /** The parts of a member's path inside the application. */
  function Parts(m: Member, app: string): seq<string>
    requires Inside(m, app)
  {
    Split(m.name[|Prefix(app)|..])
  }

  /** The directory, or at the last part the member, that the first parts of its path name. */
  function NodeAt(parts: seq<string>, directory: bool, count: nat): Node
    requires count <= |parts|
  {
    Node(Join(parts[..count]), count < |parts| || directory)
  }

  function FirstNodes(parts: seq<string>, directory: bool, count: nat): set<Node>
    requires count <= |parts|
  {
    if count == 0 then {} else FirstNodes(parts, directory, count - 1) + {NodeAt(parts, directory, count)}
  }

  /** A member and every directory it needs, explicit or not. */
  function NodesOf(m: Member, app: string): set<Node> {
    if Inside(m, app) then FirstNodes(Parts(m, app), m.directory, |Parts(m, app)|) else {}
  }

  function Tree(members: seq<Member>, app: string): set<Node> {
    if members == [] then {} else Tree(members[..|members| - 1], app) + NodesOf(members[|members| - 1], app)
  }

  function Folded(text: Text, nodes: set<Node>): set<string> {
    set n | n in nodes :: text.fold(n.path)
  }

  /** No two nodes differ only in case. */
  predicate Unambiguous(text: Text, nodes: set<Node>) {
    forall a, b :: a in nodes && b in nodes && text.fold(a.path) == text.fold(b.path) ==> a == b
  }

  function TotalSize(members: seq<Member>): nat {
    if members == [] then 0
    else TotalSize(members[..|members| - 1]) + (if members[|members| - 1].directory then 0 else members[|members| - 1].info.fileSize)
  }

  function TotalCompressed(members: seq<Member>): nat {
    if members == [] then 0
    else TotalCompressed(members[..|members| - 1])
         + (if members[|members| - 1].directory then 0 else members[|members| - 1].info.compressedSize)
  }

  /** No two members have names that differ only in case. */
  predicate NamesApart(text: Text, members: seq<Member>) {
    forall i, j :: 0 <= i < j < |members| ==> text.fold(members[i].name) != text.fold(members[j].name)
  }

  /** The member list is that of an archive of this application, and of no other. */
  ghost predicate Acceptable(text: Text, infos: seq<Info>, limits: Limits, members: seq<Member>, app: string) {
    && 0 < |infos| <= limits.maxEntries && |members| == |infos|
    && (forall i :: 0 <= i < |infos| ==> MemberOk(text, infos[i], limits.maxBytes) && members[i] == MemberOf(infos[i]))
    && NamesApart(text, members)
    && TotalSize(members) <= limits.maxBytes
    && Candidates(text, members) == {app}
    && (forall i :: 0 <= i < |members| ==> Belongs(members[i], app))
    && Unambiguous(text, Tree(members, app))
    && |Folded(text, Tree(members, app))| <= limits.maxEntries
  }

  // ---------------------------------------------------------------------------------------------
  // The two passes
  // ---------------------------------------------------------------------------------------------

  method CheckMember(text: Text, info: Info, maxBytes: nat) returns (r: Option<Member>)
    ensures r.Some? <==> MemberOk(text, info, maxBytes)
    ensures r.Some? ==> r.value == MemberOf(info)
  {
    if !NameOk(text, info.filename) { return None; }
    var m := MemberOf(info);
    if info.encrypted || !(info.method_ in {STORED, DEFLATED}) || info.fileSize > maxBytes { return None; }
    if !m.directory {
      if info.compressedSize == 0 {
        if info.fileSize != 0 { return None; }
      } else if info.fileSize > info.compressedSize * MAX_COMPRESSION_RATIO { return None; }
    }
    if info.createSystem == UNIX && FileType(info.mode) == LINK { return None; }
    if info.createSystem == UNIX && info.mode != 0 {
      if !((m.directory && FileType(info.mode) == DIRECTORY) || (!m.directory && FileType(info.mode) == REGULAR)) { return None; }
      if UnsafeMode(info.mode) { return None; }
    }
    if m.name == PAYLOAD {
      if !m.directory { return None; }
    } else {
      if Split(m.name)[0] != PAYLOAD || |Split(m.name)| < 2 { return None; }
    }
    r := Some(m);
  }

  lemma {:induction false} NameIsFolded(text: Text, members: seq<Member>, i: nat)
    requires i < |members|
    ensures text.fold(members[i].name) in FoldedNames(text, members)
    decreases |members|
  {
    if i < |members| - 1 { NameIsFolded(text, members[..|members| - 1], i); }
  }

  lemma {:induction false} FoldedIsName(text: Text, members: seq<Member>, s: string) returns (i: nat)
    requires s in FoldedNames(text, members)
    ensures i < |members| && text.fold(members[i].name) == s
    decreases |members|
  {
    i := |members| - 1;
    if s in FoldedNames(text, members[..i]) { i := FoldedIsName(text, members[..i], s); }
  }

  /** What the first pass has established of the members so far. */
  ghost predicate Gathered(text: Text, infos: seq<Info>, maxBytes: nat, members: seq<Member>) {
    && |members| <= |infos|
    && (forall i :: 0 <= i < |members| ==> MemberOk(text, infos[i], maxBytes) && members[i] == MemberOf(infos[i]))
    && NamesApart(text, members) && TotalSize(members) <= maxBytes
  }

  lemma GatherNext(text: Text, infos: seq<Info>, maxBytes: nat, members: seq<Member>, m: Member)
    requires Gathered(text, infos, maxBytes, members) && |members| < |infos|
    requires MemberOk(text, infos[|members|], maxBytes) && m == MemberOf(infos[|members|])
    requires text.fold(m.name) !in FoldedNames(text, members) && TotalSize(members + [m]) <= maxBytes
    ensures Gathered(text, infos, maxBytes, members + [m])
  {
    hide MemberOk, NamesApart, FoldedNames, TotalSize;
    NamesStayApart(text, members, m);
  }

  lemma NamesStayApart(text: Text, members: seq<Member>, m: Member)
    requires NamesApart(text, members) && text.fold(m.name) !in FoldedNames(text, members)
    ensures NamesApart(text, members + [m])
  {
    forall i | 0 <= i < |members| ensures text.fold(members[i].name) != text.fold(m.name) { NameIsFolded(text, members, i); }
  }

  lemma {:induction false} SizesGrow(members: seq<Member>, k: nat)
    requires k <= |members|
    ensures TotalSize(members[..k]) <= TotalSize(members)
    decreases |members|
  {
    if k < |members| {
      SizesGrow(members[..|members| - 1], k);
      assert members[..|members| - 1][..k] == members[..k];
    } else {
      assert members[..k] == members;
    }
  }

  /** A member that fails spoils every acceptance. */
  lemma Refused(text: Text, infos: seq<Info>, limits: Limits, members: seq<Member>, m: Member)
    requires Gathered(text, infos, limits.maxBytes, members) && |members| < |infos|
    requires !MemberOk(text, infos[|members|], limits.maxBytes)
             || (m == MemberOf(infos[|members|])
                 && (text.fold(m.name) in FoldedNames(text, members) || TotalSize(members + [m]) > limits.maxBytes))
    ensures forall all, app :: !Acceptable(text, infos, limits, all, app)
  {
    forall all, app ensures !Acceptable(text, infos, limits, all, app) {
      if Acceptable(text, infos, limits, all, app) { RefusedOne(text, infos, limits, members, m, all, app); }
    }
  }

  lemma RefusedOne(text: Text, infos: seq<Info>, limits: Limits, members: seq<Member>, m: Member, all: seq<Member>, app: string)
    requires Gathered(text, infos, limits.maxBytes, members) && |members| < |infos| && Acceptable(text, infos, limits, all, app)
    ensures MemberOk(text, infos[|members|], limits.maxBytes)
    ensures m == MemberOf(infos[|members|]) ==>
              text.fold(m.name) !in FoldedNames(text, members) && TotalSize(members + [m]) <= limits.maxBytes
  {
    hide Gathered, Acceptable, KindOk, PlaceOk, SizeOk, NamesApart, TotalSize, FoldedNames;
    var n := |members|;
    GatheredIsPrefix(text, infos, limits, members, all, app);
    if m == MemberOf(infos[n]) {
      assert all[..n + 1] == members + [m];
      SizesGrow(all, n + 1);
      NewName(text, all, n);
    }
  }

  lemma GatheredIsPrefix(text: Text, infos: seq<Info>, limits: Limits, members: seq<Member>, all: seq<Member>, app: string)
    requires Gathered(text, infos, limits.maxBytes, members) && |members| < |infos| && Acceptable(text, infos, limits, all, app)
    ensures |members| < |all| && members == all[..|members|]
    ensures MemberOk(text, infos[|members|], limits.maxBytes) && all[|members|] == MemberOf(infos[|members|])
    ensures NamesApart(text, all) && TotalSize(all) <= limits.maxBytes
  {
    hide Candidates, Unambiguous, Tree, Belongs, NamesApart, TotalSize, FoldedNames, MemberOk, MemberOf;
  }

  lemma NewName(text: Text, all: seq<Member>, n: nat)
    requires NamesApart(text, all) && n < |all|
    ensures text.fold(all[n].name) !in FoldedNames(text, all[..n])
  {
    if text.fold(all[n].name) in FoldedNames(text, all[..n]) {
      var i := FoldedIsName(text, all[..n], text.fold(all[n].name));
      assert false;
    }
  }

  /** The first pass: every member alone, names that differ in more than case, the sum of the sizes, and the
      applications named. */
  method FirstPass(text: Text, infos: seq<Info>, limits: Limits) returns (r: Option<(seq<Member>, set<string>)>)
    ensures r.Some? ==> Gathered(text, infos, limits.maxBytes, r.value.0) && |r.value.0| == |infos|
                        && r.value.1 == Candidates(text, r.value.0)
    ensures r.None? ==> forall all, app :: !Acceptable(text, infos, limits, all, app)
  {
    hide MemberOk, Acceptable;
    var members: seq<Member>, seen: set<string>, candidates: set<string>, total := [], {}, {}, 0;
    for k := 0 to |infos|
      invariant |members| == k && Gathered(text, infos, limits.maxBytes, members)
      invariant seen == FoldedNames(text, members) && candidates == Candidates(text, members) && total == TotalSize(members)
    {
      var checked := CheckMember(text, infos[k], limits.maxBytes);
      if checked.None? {
        Refused(text, infos, limits, members, Member(infos[k], "", false));
        return None;
      }
      var m := checked.value;
      assert (members + [m])[..k] == members;
      if text.fold(m.name) in seen {
        Refused(text, infos, limits, members, m);
        return None;
      }
      seen := seen + {text.fold(m.name)};
      if !m.directory {
        total := total + m.info.fileSize;
        if total > limits.maxBytes {
          Refused(text, infos, limits, members, m);
          return None;
        }
      }
      GatherNext(text, infos, limits.maxBytes, members, m);
      candidates := candidates + Candidate(text, m);
      members := members + [m];
    }
    r := Some((members, candidates));
  }

  // The second pass ------------------------------------------------------------------------------

  /** The table of nodes holds exactly the nodes met so far, under their folded paths. */
  ghost predicate Mapped(text: Text, table: map<string, Node>, done: set<Node>) {
    && (forall n :: n in done ==> text.fold(n.path) in table && table[text.fold(n.path)] == n)
    && (forall k :: k in table ==> table[k] in done && text.fold(table[k].path) == k)
  }

  lemma MapNext(text: Text, table: map<string, Node>, done: set<Node>, n: Node)
    requires Mapped(text, table, done)
    ensures var k := text.fold(n.path);
            if k in table && table[k] != n then !Unambiguous(text, done + {n})
            else Mapped(text, table[k := n], done + {n})
  {
    var k := text.fold(n.path);
    if k in table && table[k] != n {
      assert table[k] in done + {n} && n in done + {n};
    }
  }

  lemma MappedIsUnambiguous(text: Text, table: map<string, Node>, done: set<Node>)
    requires Mapped(text, table, done)
    ensures Unambiguous(text, done) && |table| == |Folded(text, done)|
  {
    assert table.Keys == Folded(text, done);
  }

  /** What is wrong with some of the nodes is wrong with all of them. */
  lemma PartIsWrong(text: Text, part: set<Node>, all: set<Node>, maxEntries: nat)
    requires part <= all
    ensures !Unambiguous(text, part) ==> !Unambiguous(text, all)
    ensures |Folded(text, part)| > maxEntries ==> |Folded(text, all)| > maxEntries
  {
    assert Folded(text, all) == Folded(text, part) + (Folded(text, all) - Folded(text, part));
  }

  lemma {:induction false} TreeHasMember(members: seq<Member>, app: string, k: nat)
    requires k < |members|
    ensures Tree(members[..k], app) + NodesOf(members[k], app) <= Tree(members, app)
    decreases |members|
  {
    if k < |members| - 1 {
      TreeHasMember(members[..|members| - 1], app, k);
      assert members[..|members| - 1][..k] == members[..k];
    }
  }

  lemma {:induction false} FirstNodesGrow(parts: seq<string>, directory: bool, count: nat, more: nat)
    requires count <= more <= |parts|
    ensures FirstNodes(parts, directory, count) <= FirstNodes(parts, directory, more)
    decreases more
  {
    if count < more { FirstNodesGrow(parts, directory, count, more - 1); }
  }

  ghost predicate TreeOk(text: Text, members: seq<Member>, app: string, maxEntries: nat) {
    && (forall i :: 0 <= i < |members| ==> Belongs(members[i], app))
    && Unambiguous(text, Tree(members, app)) && |Folded(text, Tree(members, app))| <= maxEntries
  }

  /** Entering one more node keeps the table, or shows that the whole tree is wrong. */
  lemma EnterNode(text: Text, nodes: map<string, Node>, done: set<Node>, parts: seq<string>, directory: bool, count: nat, maxEntries: nat)
    requires 1 <= count <= |parts| && Mapped(text, nodes, done + FirstNodes(parts, directory, count - 1))
    ensures var n, all := NodeAt(parts, directory, count), done + FirstNodes(parts, directory, |parts|);
            var k := text.fold(n.path);
            if k in nodes && nodes[k] != n then !Unambiguous(text, all)
            else Mapped(text, nodes[k := n], done + FirstNodes(parts, directory, count))
                 && (|nodes[k := n]| > maxEntries ==> |Folded(text, all)| > maxEntries)
  {
    hide Unambiguous, Folded, Mapped;
    var n, before := NodeAt(parts, directory, count), done + FirstNodes(parts, directory, count - 1);
    var k := text.fold(n.path);
    MapNext(text, nodes, before, n);
    assert before + {n} == done + FirstNodes(parts, directory, count);
    FirstNodesGrow(parts, directory, count, |parts|);
    PartIsWrong(text, before + {n}, done + FirstNodes(parts, directory, |parts|), maxEntries);
    if !(k in nodes && nodes[k] != n) { MappedIsUnambiguous(text, nodes[k := n], before + {n}); }
  }

  /** One member's nodes are entered into the table. */
  method EnterMember(text: Text, table: map<string, Node>, parts: seq<string>, directory: bool, maxEntries: nat, ghost done: set<Node>)
    returns (r: Option<map<string, Node>>)
    requires Mapped(text, table, done) && |table| <= maxEntries
    ensures var all := done + FirstNodes(parts, directory, |parts|);
            if r.Some? then Mapped(text, r.value, all) && |r.value| <= maxEntries
            else !Unambiguous(text, all) || |Folded(text, all)| > maxEntries
  {
    hide Unambiguous, Folded, Mapped, NodeAt, FirstNodes;
    var nodes := table;
    NoNodes(done, parts, directory);
    for count := 1 to |parts| + 1
      invariant Mapped(text, nodes, done + FirstNodes(parts, directory, count - 1)) && |nodes| <= maxEntries
    {
      var n := NodeAt(parts, directory, count);
      var folded := text.fold(n.path);
      EnterNode(text, nodes, done, parts, directory, count, maxEntries);
      if folded in nodes && nodes[folded] != n { return None; }
      nodes := nodes[folded := n];
      if |nodes| > maxEntries { return None; }
    }
    r := Some(nodes);
  }

  lemma NoNodes(done: set<Node>, parts: seq<string>, directory: bool)
    ensures done + FirstNodes(parts, directory, 0) == done
  {
  }

  /** One more member of a tree. */
  lemma TreeNext(members: seq<Member>, app: string, k: nat)
    requires k < |members|
    ensures Tree(members[..k + 1], app) == Tree(members[..k], app) + NodesOf(members[k], app) <= Tree(members, app)
  {
    assert members[..k + 1][..k] == members[..k];
    TreeHasMember(members, app, k);
  }

  /** The second pass: every member belongs to the application, and its tree has no conflicts. */
  method SecondPass(text: Text, members: seq<Member>, app: string, maxEntries: nat) returns (ok: bool)
    ensures ok <==> TreeOk(text, members, app, maxEntries)
  {
    hide Unambiguous, Folded, Belongs, Mapped, Tree, FirstNodes;
    var table: map<string, Node> := map[];
    EmptyTree(text, members, app);
    for k := 0 to |members|
      invariant forall i :: 0 <= i < k ==> Belongs(members[i], app)
      invariant Mapped(text, table, Tree(members[..k], app)) && |table| <= maxEntries
    {
      var m := members[k];
      if !Belongs(m, app) { return false; }
      TreeNext(members, app, k);
      if Inside(m, app) {
        PartIsWrong(text, Tree(members[..k], app) + NodesOf(m, app), Tree(members, app), maxEntries);
        var entered := EnterMember(text, table, Parts(m, app), m.directory, maxEntries, Tree(members[..k], app));
        if entered.None? { return false; }
        table := entered.value;
      } else {
        assert Tree(members[..k], app) + NodesOf(m, app) == Tree(members[..k], app);
      }
    }
    assert members[..|members|] == members;
    MappedIsUnambiguous(text, table, Tree(members, app));
    ok := true;
  }

  lemma EmptyTree(text: Text, members: seq<Member>, app: string)
    ensures Mapped(text, map[], Tree(members[..0], app))
  {
  }

  // ---------------------------------------------------------------------------------------------
  // The whole check
  // ---------------------------------------------------------------------------------------------

  method Validate(text: Text, infos: seq<Info>, limits: Limits) returns (r: Option<(seq<Member>, string)>)
    ensures r.Some? ==> Acceptable(text, infos, limits, r.value.0, r.value.1)
    ensures r.None? ==> forall members, app :: !Acceptable(text, infos, limits, members, app)
  {
    hide Tree, Unambiguous, Folded, MemberOk, NamesApart, Belongs, Candidates;
    if !(0 < |infos| <= limits.maxEntries) { return None; }
    var gathered := FirstPass(text, infos, limits);
    if gathered.None? { return None; }
    var members, candidates := gathered.value.0, gathered.value.1;
    if |candidates| != 1 {
      NotOneApp(text, infos, limits, members);
      return None;
    }
    var app :| app in candidates;
    OnlyElement(candidates, app);
    var ok := SecondPass(text, members, app, limits.maxEntries);
    if !ok {
      BadTree(text, infos, limits, members, app);
      return None;
    }
    r := Some((members, app));
  }

  lemma OnlyElement(s: set<string>, x: string)
    requires |s| == 1 && x in s
    ensures s == {x}
  {
    assert |s - {x}| == 0;
  }

  lemma SameElement(a: string, b: string)
    requires {a} == {b}
    ensures a == b
  {
    assert a in {b};
  }

  lemma SameMembers(text: Text, infos: seq<Info>, limits: Limits, members: seq<Member>, all: seq<Member>, app: string)
    requires Gathered(text, infos, limits.maxBytes, members) && |members| == |infos| && Acceptable(text, infos, limits, all, app)
    ensures all == members
  {
    hide MemberOk, Unambiguous, Tree, Belongs, NamesApart;
  }

  lemma NotOneApp(text: Text, infos: seq<Info>, limits: Limits, members: seq<Member>)
    requires Gathered(text, infos, limits.maxBytes, members) && |members| == |infos| && |Candidates(text, members)| != 1
    ensures forall all, app :: !Acceptable(text, infos, limits, all, app)
  {
    hide Gathered;
    forall all, app ensures !Acceptable(text, infos, limits, all, app) {
      if Acceptable(text, infos, limits, all, app) {
        SameMembers(text, infos, limits, members, all, app);
        assert false;
      }
    }
  }

  lemma BadTree(text: Text, infos: seq<Info>, limits: Limits, members: seq<Member>, only: string)
    requires Gathered(text, infos, limits.maxBytes, members) && |members| == |infos|
    requires Candidates(text, members) == {only} && !TreeOk(text, members, only, limits.maxEntries)
    ensures forall all, app :: !Acceptable(text, infos, limits, all, app)
  {
    hide Gathered;
    forall all, app ensures !Acceptable(text, infos, limits, all, app) {
      if Acceptable(text, infos, limits, all, app) {
        SameMembers(text, infos, limits, members, all, app);
        SameElement(app, only);
        assert false;
      }
    }
  }

  // ---------------------------------------------------------------------------------------------
  // What an accepted list promises
  // ---------------------------------------------------------------------------------------------

  lemma {:induction false} NodeIsOf(members: seq<Member>, app: string, n: Node) returns (m: Member, count: nat)
    requires n in Tree(members, app)
    ensures m in members && Inside(m, app) && 1 <= count <= |Parts(m, app)| && n == NodeAt(Parts(m, app), m.directory, count)
    decreases |members|
  {
    var last := members[|members| - 1];
    if n in NodesOf(last, app) {
      m := last;
      count := NodeIsFirst(Parts(m, app), m.directory, |Parts(m, app)|, n);
    } else {
      m, count := NodeIsOf(members[..|members| - 1], app, n);
    }
  }

  lemma {:induction false} NodeIsFirst(parts: seq<string>, directory: bool, bound: nat, n: Node) returns (count: nat)
    requires bound <= |parts| && n in FirstNodes(parts, directory, bound)
    ensures 1 <= count <= bound && n == NodeAt(parts, directory, count)
    decreases bound
  {
    count := bound;
    if n in FirstNodes(parts, directory, bound - 1) { count := NodeIsFirst(parts, directory, bound - 1, n); }
  }

  lemma {:induction false} NodeIn(members: seq<Member>, app: string, m: Member, count: nat)
    requires m in members && Inside(m, app) && 1 <= count <= |Parts(m, app)|
    ensures NodeAt(Parts(m, app), m.directory, count) in Tree(members, app)
  {
    var k :| 0 <= k < |members| && members[k] == m;
    TreeHasMember(members, app, k);
    FirstNodesGrow(Parts(m, app), m.directory, count, |Parts(m, app)|);
  }

  /** Every directory that a path of the tree passes through is a directory of the tree. */
  lemma TreeIsPrefixClosed(members: seq<Member>, app: string, n: Node, i: nat)
    requires n in Tree(members, app) && i < |n.path| && n.path[i] == '/'
    ensures Node(n.path[..i], true) in Tree(members, app)
  {
    var m, count := NodeIsOf(members, app, n);
    var parts := Parts(m, app);
    SplitJoin(m.name[|Prefix(app)|..]);
    var k := CutAtSlash(parts[..count], i);
    assert parts[..count][..k] == parts[..k];
    NodeIn(members, app, m, k);
  }

  /** No file is a proper ancestor of another node, whatever the case of its name. */
  lemma FilesAreLeaves(text: Text, infos: seq<Info>, limits: Limits, members: seq<Member>, app: string, file: Node, n: Node, i: nat)
    requires Acceptable(text, infos, limits, members, app)
    requires file in Tree(members, app) && !file.directory && n in Tree(members, app)
    requires i < |n.path| && n.path[i] == '/'
    ensures text.fold(n.path[..i]) != text.fold(file.path)
  {
    TreeIsPrefixClosed(members, app, n, i);
    var directory := Node(n.path[..i], true);
    assert directory != file;
  }

  /** Folding the paths of the tree loses none of them. */
  lemma {:induction false} FoldingKeepsCount(text: Text, nodes: set<Node>)
    requires Unambiguous(text, nodes)
    ensures |Folded(text, nodes)| == |nodes|
    decreases |nodes|
  {
    if nodes != {} {
      var n :| n in nodes;
      var rest := nodes - {n};
      FoldingKeepsCount(text, rest);
      assert Folded(text, nodes) == Folded(text, rest) + {text.fold(n.path)};
    }
  }

  lemma {:induction false} Inflates(text: Text, members: seq<Member>, infos: seq<Info>, maxBytes: nat)
    requires |members| <= |infos|
    requires forall i :: 0 <= i < |members| ==> MemberOk(text, infos[i], maxBytes) && members[i] == MemberOf(infos[i])
    ensures TotalSize(members) <= TotalCompressed(members) * MAX_COMPRESSION_RATIO
    decreases |members|
  {
    if members != [] {
      Inflates(text, members[..|members| - 1], infos, maxBytes);
      assert MemberOk(text, infos[|members| - 1], maxBytes);
    }
  }

  /** The tree of an accepted list is that of one application: every member belongs to it, no two nodes are told
      apart by case only, and nodes and bytes stay within the limits. */
  lemma AcceptedTreeIsBounded(text: Text, infos: seq<Info>, limits: Limits, members: seq<Member>, app: string)
    requires Acceptable(text, infos, limits, members, app)
    ensures |Tree(members, app)| <= limits.maxEntries
    ensures TotalSize(members) <= limits.maxBytes && TotalSize(members) <= TotalCompressed(members) * MAX_COMPRESSION_RATIO
    ensures forall a, b :: a in Tree(members, app) && b in Tree(members, app) && text.fold(a.path) == text.fold(b.path) ==> a == b
    ensures forall i :: 0 <= i < |members| ==>
              members[i].name == PAYLOAD || members[i].name == PAYLOAD + "/" + app || Prefix(app) <= members[i].name
  {
    FoldingKeepsCount(text, Tree(members, app));
    Inflates(text, members, infos, limits.maxBytes);
  }

  /** Every member inside the application is a node of the tree, a directory exactly when the member is one. */
  lemma MembersAreNodes(members: seq<Member>, app: string, m: Member)
    requires m in members && Inside(m, app)
    ensures Node(m.name[|Prefix(app)|..], m.directory) in Tree(members, app)
  {
    var parts := Parts(m, app);
    SplitJoin(m.name[|Prefix(app)|..]);
    NodeIn(members, app, m, |parts|);
    assert parts[..|parts|] == parts;
  }

  /** At most one application and one reading of the members are accepted for a list. */
  lemma AcceptedOnce(text: Text, infos: seq<Info>, limits: Limits, a: seq<Member>, app: string, b: seq<Member>, other: string)
    requires Acceptable(text, infos, limits, a, app) && Acceptable(text, infos, limits, b, other)
    ensures a == b && app == other
  {
    hide MemberOk, Unambiguous, Tree, Belongs, NamesApart, Candidates;
    assert a == b;
    SameElement(app, other);
  }
}
