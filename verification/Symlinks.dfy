/** Symbolic links inside an application bundle: how a path is resolved on the recorded tree, and how that relates
    to following the path one component at a time. */
module Symlinks {
  import opened Wrappers
  import opened Paths

  const MAX_SYMLINK_DEPTH: nat := 16

  /** The components of a path; the bundle itself is the empty path. */
  type Path = seq<string>

  datatype Entry = File(path: Path) | Directory(path: Path)

  /** A scanned tree; `fits` is the check that a joined path is a relative path of bounded length. */
  datatype Tree = Tree(files: set<Path>, directories: set<Path>, links: map<Path, Path>, fits: Path -> bool) {
    predicate Has(p: Path) {
      p in files || p in directories || p in links
    }
  }

  function Parent(p: Path): Path
    requires p != []
  {
    p[..|p| - 1]
  }

  /** Every entry is of one kind and lies in a directory, and no entry is called "..". */
  ghost predicate WellShaped(t: Tree) {
    && [] in t.directories
    && (forall p :: p in t.files ==> p !in t.directories && p !in t.links)
    && (forall p :: p in t.directories ==> p !in t.links)
    && (forall p :: t.Has(p) && p != [] ==> Parent(p) in t.directories && ".." !in p)
  }

  // ---------------------------------------------------------------------------------------------
  // Targets
  // ---------------------------------------------------------------------------------------------

  /** The components of a link target, if it is relative, bounded and made of plain names and "..". */
  function ParseTarget(text: Text, value: string): (r: Option<Path>)
    ensures r.Some? ==> Join(r.value) == value && forall i :: 0 <= i < |r.value| ==> r.value[i] == ".." || ComponentOk(text, r.value[i])
  {
    SplitJoin(value);
    if value == "" || text.encodedLength(value) > MAX_PATH_BYTES || '\\' in value || '\0' in value || value[0] == '/'
       || text.compose(value) != value || !Printable(value) then None
    else if forall i :: 0 <= i < |Split(value)| ==> Split(value)[i] == ".." || ComponentOk(text, Split(value)[i]) then Some(Split(value))
    else None
  }

  predicate TargetPart(text: Text, part: string) {
    part == ".." || ComponentOk(text, part)
  }

  /** Parts of the right kind, joined, are accepted and read back, unless the whole is too long or not composed. */
  lemma TargetReadsBack(text: Text, parts: seq<string>)
    requires parts != [] && forall i :: 0 <= i < |parts| ==> TargetPart(text, parts[i])
    ensures var value := Join(parts);
            ParseTarget(text, value)
            == if text.encodedLength(value) <= MAX_PATH_BYTES && text.compose(value) == value then Some(parts) else None
  {
    hide Split, Join, ComponentOk, Printable;
    var value := Join(parts);
    forall i | 0 <= i < |parts| ensures '/' !in parts[i] && Clean(parts[i]) && parts[i] != "" { PartIsClean(text, parts[i]); }
    JoinSplit(parts);
    JoinClean(parts);
    JoinStarts(parts);
    assert forall i :: 0 <= i < |parts| ==> TargetPart(text, parts[i]);
  }

  lemma PartIsClean(text: Text, part: string)
    requires TargetPart(text, part)
    ensures '/' !in part && Clean(part) && part != ""
  {
  }

  lemma JoinStarts(parts: seq<string>)
    requires parts != [] && parts[0] != "" && '/' !in parts[0]
    ensures Join(parts) != "" && Join(parts)[0] != '/'
  {
    assert Join(parts)[0] == parts[0][0] && parts[0][0] in parts[0];
  }

  /** `normpath` of a relative path without empty and "." components. */
  function Normalize(done: Path, rest: Path): Path
    decreases |rest|
  {
    if rest == [] then done
    else if rest[0] != ".." || done == [] || done[|done| - 1] == ".." then Normalize(done + [rest[0]], rest[1..])
    else Normalize(Parent(done), rest[1..])
  }

  /** Where a link points, inside the bundle. */
  function LinkPath(t: Tree, path: Path): Option<Path>
    requires path in t.links && path != []
  {
    var joined := Normalize([], Parent(path) + t.links[path]);
    if joined == [] then Some([])
    else if joined[0] == ".." then None
    else if !t.fits(joined) then None
    else Some(joined)
  }

  // ---------------------------------------------------------------------------------------------
  // Resolution on the recorded tree
  // ---------------------------------------------------------------------------------------------

  /** The longest of the first `bound` prefixes that is a link. */
  function LongestLink(t: Tree, path: Path, bound: nat): (r: Option<nat>)
    requires bound <= |path|
    ensures r.Some? ==> 0 < r.value <= bound && path[..r.value] in t.links
    ensures forall k :: (if r.Some? then r.value else 0) < k <= bound ==> path[..k] !in t.links
  {
    if bound == 0 then None else if path[..bound] in t.links then Some(bound) else LongestLink(t, path, bound - 1)
  }

  /** The entry a path stands for. The depth limit makes the recursion end. */
  function Resolve(t: Tree, candidate: Path, stack: set<Path>): (r: Option<Entry>)
    requires [] !in t.links
    ensures r.Some? ==> (if r.value.File? then r.value.path in t.files else r.value.path in t.directories)
    decreases MAX_SYMLINK_DEPTH - |stack|
  {
    if candidate in t.files then Some(File(candidate))
    else if candidate in t.directories then Some(Directory(candidate))
    else if candidate in t.links then
      if candidate in stack || |stack| >= MAX_SYMLINK_DEPTH then None
      else
        var target := LinkPath(t, candidate);
        if target.None? then None else Resolve(t, target.value, stack + {candidate})
    else
      match LongestLink(t, candidate, |candidate|)
      case None => None
      case Some(index) =>
        var prefix := candidate[..index];
        if prefix in stack || |stack| >= MAX_SYMLINK_DEPTH then None
        else
          var target := LinkPath(t, prefix);
          if target.None? then None else Resolve(t, target.value + candidate[index..], stack + {prefix})
  }

  // ---------------------------------------------------------------------------------------------
  // Resolution one component at a time
  // ---------------------------------------------------------------------------------------------

  /** The entry reached and the links followed on the way, in order. */
  datatype Visit = Visit(entry: Entry, followed: seq<Path>)

  /** Follow the components from a directory, each link at the place where it is met, at most `budget` links. */
  function Walk(t: Tree, here: Path, rest: Path, budget: nat): Option<Visit>
    decreases budget, |rest|
  {
    if rest == [] then (if here in t.directories then Some(Visit(Directory(here), [])) else None)
    else if rest[0] == ".." then (if here == [] then None else Walk(t, Parent(here), rest[1..], budget))
    else
      var next := here + [rest[0]];
      if next in t.links then
        if budget == 0 then None
        else
          match Walk(t, here, t.links[next] + rest[1..], budget - 1)
          case None => None
          case Some(v) => Some(Visit(v.entry, [next] + v.followed))
      else if next in t.directories then Walk(t, next, rest[1..], budget)
      else if next in t.files && rest[1..] == [] then Some(Visit(File(next), []))
      else None
  }

  // ---------------------------------------------------------------------------------------------
  // The shape of a tree
  // ---------------------------------------------------------------------------------------------

  /** Every proper prefix of an entry is a directory. */
  lemma {:induction false} PrefixesAreDirectories(t: Tree, p: Path, k: nat)
    requires WellShaped(t) && t.Has(p) && k < |p|
    ensures p[..k] in t.directories
    decreases |p|
  {
    if k < |p| - 1 {
      PrefixesAreDirectories(t, Parent(p), k);
      assert Parent(p)[..k] == p[..k];
    }
  }

  lemma NoShorterLink(t: Tree, path: Path, j: nat, k: nat)
    requires WellShaped(t) && j < k <= |path| && path[..k] in t.links
    ensures path[..j] !in t.links
  {
    assert path[..k][..j] == path[..j];
    PrefixesAreDirectories(t, path[..k], j);
  }

  /** At most one prefix of a path is a link. */
  lemma OneLinkOnAPath(t: Tree, path: Path, j: nat, k: nat)
    requires WellShaped(t) && j <= |path| && k <= |path| && path[..j] in t.links && path[..k] in t.links
    ensures j == k
  {
    if j < k { NoShorterLink(t, path, j, k); }
    if k < j { NoShorterLink(t, path, k, j); }
  }

  // ---------------------------------------------------------------------------------------------
  // Normal forms
  // ---------------------------------------------------------------------------------------------

  function Ups(n: nat): Path {
    if n == 0 then [] else [".."] + Ups(n - 1)
  }

  /** All the ".." of a path come first. */
  ghost predicate LeadingUps(target: Path, ups: nat) {
    ups <= |target| && target[..ups] == Ups(ups) && ".." !in target[ups..]
  }

  /** A path that starts with ".." after normalization still does whatever follows. */
  lemma {:induction false} EscapedStays(done: Path, rest: Path)
    requires done != [] && done[0] == ".."
    ensures Normalize(done, rest) != [] && Normalize(done, rest)[0] == ".."
    decreases |rest|
  {
    if rest != [] {
      if rest[0] != ".." || done[|done| - 1] == ".." { EscapedStays(done + [rest[0]], rest[1..]); }
      else { EscapedStays(Parent(done), rest[1..]); }
    }
  }

  /** Normalizing after a plain base is normalizing the rest on top of it. */
  lemma NormalizeBase(base: Path, rest: Path)
    requires ".." !in base
    ensures Normalize([], base + rest) == Normalize(base, rest)
  {
    NormalizeOnto([], base, rest);
    assert [] + base == base;
  }

  lemma {:induction false} NormalizeOnto(done: Path, base: Path, rest: Path)
    requires ".." !in base
    ensures Normalize(done, base + rest) == Normalize(done + base, rest)
    decreases |base|
  {
    if base == [] {
      assert base + rest == rest && done + base == done;
    } else {
      assert (base + rest)[1..] == base[1..] + rest && done + base == done + [base[0]] + base[1..];
      NormalizeOnto(done + [base[0]], base[1..], rest);
    }
  }

  // ---------------------------------------------------------------------------------------------
  // The two resolutions agree
  // ---------------------------------------------------------------------------------------------

  /** Every ".." of a target, as it is normalized from `done`, leaves a recorded directory. */
  predicate Grounded(t: Tree, done: Path, target: Path)
    decreases |target|
  {
    target == [] ||
    if target[0] != ".." then Grounded(t, done + [target[0]], target[1..])
    else done == [] || (done in t.directories && Grounded(t, Parent(done), target[1..]))
  }

  ghost predicate GroundedTargets(t: Tree) {
    forall p :: p in t.links && p != [] ==> Grounded(t, Parent(p), t.links[p])
  }

  /** Every link target is ".." components followed by plain names. */
  ghost predicate PlainTargets(t: Tree) {
    forall p :: p in t.links ==> exists ups: nat :: LeadingUps(t.links[p], ups)
  }

  /** Such targets are grounded. */
  lemma PlainIsGrounded(t: Tree)
    requires WellShaped(t) && PlainTargets(t)
    ensures GroundedTargets(t)
  {
    forall p | p in t.links && p != [] ensures Grounded(t, Parent(p), t.links[p]) {
      var ups: nat :| LeadingUps(t.links[p], ups);
      assert t.Has(p);
      LeadingIsGrounded(t, Parent(p), t.links[p], ups);
    }
  }

  lemma {:induction false} LeadingIsGrounded(t: Tree, done: Path, target: Path, ups: nat)
    requires WellShaped(t) && LeadingUps(target, ups) && (ups > 0 ==> done in t.directories)
    ensures Grounded(t, done, target)
    decreases |target|
  {
    if target != [] {
      if ups > 0 {
        assert target[..ups][0] == "..";
        assert target[1..][..ups - 1] == target[..ups][1..] == Ups(ups - 1) && target[1..][ups - 1..] == target[ups..];
        if done != [] {
          assert t.Has(done);
          LeadingIsGrounded(t, Parent(done), target[1..], ups - 1);
        }
      } else {
        assert target[0..] == target && target[0] in target;
        assert target[1..][..0] == [] && target[1..][0..] == target[1..];
        LeadingIsGrounded(t, done + [target[0]], target[1..], 0);
      }
    }
  }

  /** Walking into a directory that exists costs nothing. */
  lemma {:induction false} WalkInto(t: Tree, d: Path, k: nat, rest: Path, budget: nat)
    requires WellShaped(t) && d in t.directories && k <= |d|
    ensures Walk(t, d[..k], d[k..] + rest, budget) == Walk(t, d, rest, budget)
    decreases |d| - k
  {
    if k == |d| {
      assert d[..k] == d && d[k..] + rest == rest;
    } else {
      var next := d[..k] + [d[k]];
      assert t.Has(d) && d[k] in d;
      assert next == d[..k + 1] && (d[k..] + rest)[1..] == d[k + 1..] + rest && (d[k..] + rest)[0] == d[k];
      if k + 1 < |d| { PrefixesAreDirectories(t, d, k + 1); } else { assert next == d; }
      WalkInto(t, d, k + 1, rest, budget);
    }
  }

  /** Walking a path before its parents are taken is walking it normalized, when each ".." leaves a directory. */
  lemma {:induction false} GroundedWalk(t: Tree, done: Path, rest: Path, suffix: Path, budget: nat)
    requires WellShaped(t) && ".." !in done && Grounded(t, done, rest)
    ensures var joined := Normalize(done, rest);
            Walk(t, [], done + (rest + suffix), budget)
            == if joined == [] || joined[0] != ".." then Walk(t, [], joined + suffix, budget) else None
    ensures var joined := Normalize(done, rest); joined == [] || joined[0] != ".." ==> ".." !in joined
    decreases |rest|
  {
    if rest == [] {
      assert rest + suffix == suffix;
      assert done != [] ==> done[0] in done;
    } else if rest[0] != ".." {
      assert done + (rest + suffix) == done + [rest[0]] + (rest[1..] + suffix);
      GroundedWalk(t, done + [rest[0]], rest[1..], suffix, budget);
    } else if done == [] {
      assert done + (rest + suffix) == [".."] + (rest[1..] + suffix) && [] + [".."] == [".."];
      EscapedStays([".."], rest[1..]);
    } else {
      GroundedUp(t, done, rest[1..] + suffix, budget);
      assert [".."] + (rest[1..] + suffix) == rest + suffix;
      assert done[|done| - 1] in done;
      GroundedWalk(t, Parent(done), rest[1..], suffix, budget);
    }
  }

  /** From a directory on the way ".." is its parent. */
  lemma GroundedUp(t: Tree, done: Path, rest: Path, budget: nat)
    requires WellShaped(t) && done in t.directories && done != []
    ensures Walk(t, [], done + ([".."] + rest), budget) == Walk(t, [], Parent(done) + rest, budget)
  {
    assert t.Has(done);
    WalkInto(t, done, 0, [".."] + rest, budget);
    WalkInto(t, Parent(done), 0, rest, budget);
    assert ([".."] + rest)[1..] == rest && done[..0] == [] && done[0..] == done && Parent(done)[..0] == [] && Parent(done)[0..] == Parent(done);
  }

  /** The first ".." of a target that does not leave a recorded directory leaves a file or a name that is not recorded,
      and no link was passed on the way to it. */
  predicate Breaks(t: Tree, done: Path, target: Path)
    decreases |target|
  {
    target != [] &&
    if target[0] != ".." then Breaks(t, done + [target[0]], target[1..])
    else if done in t.directories then done != [] && Breaks(t, Parent(done), target[1..])
    else LinkFree(t, done)
  }

  predicate LinkFree(t: Tree, path: Path) {
    forall j :: 0 <= j <= |path| ==> path[..j] !in t.links
  }

  /** A walk does not get past what is not a directory. */
  lemma {:induction false} WalkStuck(t: Tree, done: Path, k: nat, rest: Path, budget: nat)
    requires WellShaped(t) && ".." !in done && LinkFree(t, done) && done !in t.directories && rest != []
    requires k <= |done| && done[..k] in t.directories
    ensures Walk(t, done[..k], done[k..] + rest, budget) == None
    decreases |done| - k
  {
    assert done[..|done|] == done;
    var next := done[..k] + [done[k]];
    assert next == done[..k + 1] && (done[k..] + rest)[1..] == done[k + 1..] + rest && (done[k..] + rest)[0] == done[k] && done[k] in done;
    if next in t.directories { WalkStuck(t, done, k + 1, rest, budget); }
  }

  lemma {:induction false} BrokenWalk(t: Tree, done: Path, rest: Path, suffix: Path, budget: nat)
    requires WellShaped(t) && ".." !in done && Breaks(t, done, rest)
    ensures Walk(t, [], done + (rest + suffix), budget) == None
    decreases |rest|
  {
    if rest[0] != ".." {
      assert done + (rest + suffix) == done + [rest[0]] + (rest[1..] + suffix);
      BrokenWalk(t, done + [rest[0]], rest[1..], suffix, budget);
    } else if done in t.directories {
      GroundedUp(t, done, rest[1..] + suffix, budget);
      assert [".."] + (rest[1..] + suffix) == rest + suffix;
      BrokenWalk(t, Parent(done), rest[1..], suffix, budget);
    } else {
      assert done[..0] == [] && done[0..] == done;
      WalkStuck(t, done, 0, rest + suffix, budget);
    }
  }

  /** Such a target is never grounded, and it misleads whenever the place it is normalized to is recorded: a path
      through the link is then resolved to the entry there, although no walk gets past the link. */
  lemma BrokenTargetsMislead(t: Tree, p: Path)
    requires WellShaped(t) && p in t.links && p != [] && Breaks(t, Parent(p), t.links[p])
    ensures !Grounded(t, Parent(p), t.links[p])
    ensures forall suffix, budget: nat :: Walk(t, [], p + suffix, budget) == None
    ensures LinkPath(t, p).Some? && LinkPath(t, p).value in t.files ==> Resolve(t, p, {}) == Some(File(LinkPath(t, p).value))
    ensures LinkPath(t, p).Some? && LinkPath(t, p).value in t.directories ==> Resolve(t, p, {}) == Some(Directory(LinkPath(t, p).value))
  {
    hide Walk;
    var base, target := Parent(p), t.links[p];
    assert t.Has(p) && (base != [] ==> t.Has(base));
    BrokenIsNotGrounded(t, base, target);
    forall suffix, budget: nat ensures Walk(t, [], p + suffix, budget) == None {
      var path := p + suffix;
      assert path[..|p|] == p && path[|p|..] == suffix;
      StopsAtBrokenLink(t, p, suffix, budget);
    }
    assert p !in t.files && p !in t.directories;
  }

  lemma StopsAtBrokenLink(t: Tree, p: Path, suffix: Path, budget: nat)
    requires WellShaped(t) && p in t.links && p != [] && Breaks(t, Parent(p), t.links[p])
    ensures Walk(t, [], p + suffix, budget) == None
  {
    hide Breaks;
    var base, name := Parent(p), p[|p| - 1];
    assert t.Has(p) && (base != [] ==> t.Has(base)) && name in p;
    WalkInto(t, base, 0, [name] + suffix, budget);
    assert base[0..] + ([name] + suffix) == p + suffix && base[..0] == [] && base + [name] == p && ([name] + suffix)[1..] == suffix;
    if budget > 0 {
      BrokenWalk(t, base, t.links[p], suffix, budget - 1);
      WalkInto(t, base, 0, t.links[p] + suffix, budget - 1);
      assert base[0..] == base;
    }
  }

  lemma {:induction false} BrokenIsNotGrounded(t: Tree, done: Path, target: Path)
    requires WellShaped(t) && Breaks(t, done, target)
    ensures !Grounded(t, done, target)
    decreases |target|
  {
    if target[0] != ".." { BrokenIsNotGrounded(t, done + [target[0]], target[1..]); }
    else if done in t.directories { BrokenIsNotGrounded(t, Parent(done), target[1..]); }
  }

  /** Walking on from a link is walking from the root to where it points. */
  lemma WalkLink(t: Tree, p: Path, suffix: Path, budget: nat)
    requires WellShaped(t) && GroundedTargets(t) && p in t.links && p != []
    ensures var joined := Normalize([], Parent(p) + t.links[p]);
            Walk(t, Parent(p), t.links[p] + suffix, budget)
            == if joined == [] || joined[0] != ".." then Walk(t, [], joined + suffix, budget) else None
    ensures var joined := Normalize([], Parent(p) + t.links[p]); joined == [] || joined[0] != ".." ==> ".." !in joined
  {
    hide Walk, Normalize;
    var base, target := Parent(p), t.links[p];
    assert t.Has(p) && base in t.directories;
    assert base != [] ==> t.Has(base);
    NormalizeBase(base, target);
    WalkInto(t, base, 0, target + suffix, budget);
    assert base[0..] == base && base[..0] == [];
    GroundedWalk(t, base, target, suffix, budget);
  }

  /** A path of plain names, up to its first link. */
  lemma WalkToLink(t: Tree, path: Path, index: nat, budget: nat)
    requires WellShaped(t) && ".." !in path && 0 < index <= |path| && path[..index] in t.links
    ensures var p, suffix := path[..index], path[index..];
            Walk(t, [], path, budget)
            == if budget == 0 then None
               else match Walk(t, Parent(p), t.links[p] + suffix, budget - 1)
                    case None => None
                    case Some(v) => Some(Visit(v.entry, [p] + v.followed))
  {
    var p, suffix := path[..index], path[index..];
    assert t.Has(p);
    WalkInto(t, Parent(p), 0, [p[index - 1]] + suffix, budget);
    assert Parent(p)[0..] + ([p[index - 1]] + suffix) == path && Parent(p)[..0] == [];
    assert Parent(p) + [p[index - 1]] == p && ([p[index - 1]] + suffix)[1..] == suffix;
    assert path[index - 1] in path;
  }

  /** A path of plain names that meets no link. */
  lemma {:induction false} WalkPlain(t: Tree, path: Path, k: nat, budget: nat)
    requires WellShaped(t) && ".." !in path && k <= |path| && path[..k] in t.directories
    requires forall j :: 0 <= j <= |path| ==> path[..j] !in t.links
    ensures Walk(t, path[..k], path[k..], budget)
            == if path in t.files then Some(Visit(File(path), []))
               else if path in t.directories then Some(Visit(Directory(path), []))
               else None
    decreases |path| - k
  {
    if k == |path| {
      assert path[..k] == path && path[k..] == [];
    } else {
      var next := path[..k] + [path[k]];
      assert next == path[..k + 1] && path[k..][1..] == path[k + 1..] && path[k..][0] == path[k] && path[k] in path;
      if next in t.directories {
        WalkPlain(t, path, k + 1, budget);
      } else if t.Has(path) {
        if k + 1 < |path| { PrefixesAreDirectories(t, path, k + 1); } else { assert next == path; }
      } else if k + 1 == |path| {
        assert next == path;
      }
    }
  }

  ghost predicate Distinct(s: seq<Path>) {
    forall i, j :: 0 <= i < j < |s| ==> s[i] != s[j]
  }

  /** What the recorded resolution asks of the links that a walk follows: no link twice, none already on the stack,
      and each pointing at a path that fits. */
  ghost predicate Admits(t: Tree, stack: set<Path>, followed: seq<Path>) {
    && Distinct(followed)
    && forall i :: 0 <= i < |followed| ==> followed[i] in t.links && followed[i] != [] && followed[i] !in stack && LinkPath(t, followed[i]).Some?
  }

  lemma AdmitsNext(t: Tree, stack: set<Path>, p: Path, rest: seq<Path>)
    requires p in t.links && p != [] && p !in stack
    ensures Admits(t, stack, [p] + rest) <==> LinkPath(t, p).Some? && Admits(t, stack + {p}, rest)
  {
    var all := [p] + rest;
    if Admits(t, stack, all) {
      assert all[0] == p;
      forall i | 0 <= i < |rest| ensures rest[i] in t.links && rest[i] != [] && rest[i] !in stack + {p} && LinkPath(t, rest[i]).Some? {
        assert all[i + 1] == rest[i];
      }
      forall i, j | 0 <= i < j < |rest| ensures rest[i] != rest[j] { assert all[i + 1] == rest[i] && all[j + 1] == rest[j]; }
    }
    if LinkPath(t, p).Some? && Admits(t, stack + {p}, rest) {
      forall i | 0 <= i < |all| ensures all[i] in t.links && all[i] != [] && all[i] !in stack && LinkPath(t, all[i]).Some? {
        if i > 0 { assert all[i] == rest[i - 1]; }
      }
      forall i, j | 0 <= i < j < |all| ensures all[i] != all[j] {
        assert all[j] == rest[j - 1];
        if i > 0 { assert all[i] == rest[i - 1]; }
      }
    }
  }

  /** The recorded resolution returns the entry the walk reaches within the limit over links that the stack admits,
      and nothing when there is no such walk. */
  ghost predicate Agrees(t: Tree, path: Path, stack: set<Path>)
    requires [] !in t.links && |stack| <= MAX_SYMLINK_DEPTH
  {
    var v := Walk(t, [], path, MAX_SYMLINK_DEPTH - |stack|);
    Resolve(t, path, stack) == if v.Some? && Admits(t, stack, v.value.followed) then Some(v.value.entry) else None
  }

  lemma {:induction false} ResolveIsWalk(t: Tree, path: Path, stack: set<Path>)
    requires WellShaped(t) && GroundedTargets(t) && ".." !in path && |stack| <= MAX_SYMLINK_DEPTH
    ensures Agrees(t, path, stack)
    decreases MAX_SYMLINK_DEPTH - |stack|
  {
    hide Walk, GroundedTargets, Agrees, Admits;
    var found := LongestLink(t, path, |path|);
    if found.None? {
      NoLink(t, path, stack);
    } else {
      var p, suffix := path[..found.value], path[found.value..];
      assert t.Has(p) && p != [];
      if |stack| < MAX_SYMLINK_DEPTH && p !in stack {
        var target := LinkPath(t, p);
        if target.Some? {
          LinksStayInside(t, p);
          ResolveIsWalk(t, target.value + suffix, stack + {p});
        }
      }
      ThroughLink(t, path, stack, found.value);
    }
  }

  lemma NoLink(t: Tree, path: Path, stack: set<Path>)
    requires WellShaped(t) && ".." !in path && |stack| <= MAX_SYMLINK_DEPTH && LongestLink(t, path, |path|).None?
    ensures Agrees(t, path, stack)
  {
    hide Walk;
    assert path[..0] == [] && path[0..] == path && path[..|path|] == path;
    WalkPlain(t, path, 0, MAX_SYMLINK_DEPTH - |stack|);
  }

  /** One step of the recorded resolution at the link on a path. */
  lemma ResolveAtLink(t: Tree, path: Path, stack: set<Path>, index: nat)
    requires WellShaped(t) && LongestLink(t, path, |path|) == Some(index) && path[..index] != []
    ensures path[..index] in t.links
    ensures var p := path[..index];
            Resolve(t, path, stack)
            == if p in stack || |stack| >= MAX_SYMLINK_DEPTH || LinkPath(t, p).None? then None
               else Resolve(t, LinkPath(t, p).value + path[index..], stack + {p})
  {
    hide LongestLink, LinkPath;
    NotBeyondALink(t, path, index);
    assert path[..|path|] == path;
    if index == |path| {
      assert LinkPath(t, path).Some? ==> LinkPath(t, path).value + path[index..] == LinkPath(t, path).value;
    }
  }

  /** A walk through a link is admitted when the link is and the rest of the walk is, with the link on the stack. */
  lemma AdmitsThrough(t: Tree, stack: set<Path>, p: Path, rest: seq<Path>)
    requires p in t.links && p != []
    ensures Admits(t, stack, [p] + rest) <==> p !in stack && LinkPath(t, p).Some? && Admits(t, stack + {p}, rest)
  {
    assert ([p] + rest)[0] == p;
    if p !in stack { AdmitsNext(t, stack, p, rest); }
  }

  /** The walk after a link goes on from where the link points, and ends there when that is outside or does not fit. */
  lemma WalkThroughLink(t: Tree, path: Path, index: nat, budget: nat)
    requires WellShaped(t) && GroundedTargets(t) && ".." !in path && 0 < index <= |path| && path[..index] in t.links
    ensures var p := path[..index]; var v := Walk(t, [], path, budget + 1);
            LinkPath(t, p).Some? ==>
              match Walk(t, [], LinkPath(t, p).value + path[index..], budget)
              case None => v == None
              case Some(after) => v == Some(Visit(after.entry, [p] + after.followed))
    ensures var v := Walk(t, [], path, budget + 1); v.Some? ==> |v.value.followed| > 0 && v.value.followed[0] == path[..index]
    ensures Walk(t, [], path, 0) == None
  {
    hide Walk, GroundedTargets, Normalize;
    WalkToLink(t, path, index, 0);
    WalkToLink(t, path, index, budget + 1);
    WalkLink(t, path[..index], path[index..], budget);
  }

  lemma ThroughLink(t: Tree, path: Path, stack: set<Path>, index: nat)
    requires WellShaped(t) && GroundedTargets(t) && ".." !in path && |stack| <= MAX_SYMLINK_DEPTH
    requires LongestLink(t, path, |path|) == Some(index) && path[..index] != []
    requires |stack| < MAX_SYMLINK_DEPTH && path[..index] !in stack && LinkPath(t, path[..index]).Some? ==>
               Agrees(t, LinkPath(t, path[..index]).value + path[index..], stack + {path[..index]})
    ensures Agrees(t, path, stack)
  {
    hide Walk, GroundedTargets, LinkPath, Admits, Resolve, LongestLink, WellShaped;
    var p, budget := path[..index], MAX_SYMLINK_DEPTH - |stack|;
    ResolveAtLink(t, path, stack, index);
    WalkThroughLink(t, path, index, if budget > 0 then budget - 1 else 0);
    var v := Walk(t, [], path, budget);
    if v.Some? {
      FirstOf(v.value.followed, p);
      AdmitsThrough(t, stack, p, v.value.followed[1..]);
    }
  }

  lemma FirstOf(followed: seq<Path>, p: Path)
    requires |followed| > 0 && followed[0] == p
    ensures followed == [p] + followed[1..] && forall rest :: followed == [p] + rest ==> rest == followed[1..]
  {
    forall rest | followed == [p] + rest ensures rest == followed[1..] { assert ([p] + rest)[1..] == rest; }
  }

  /** Nothing lies below a link. */
  lemma NotBeyondALink(t: Tree, path: Path, index: nat)
    requires WellShaped(t) && 0 < index <= |path| && path[..index] in t.links
    ensures path !in t.files && path !in t.directories && (path in t.links ==> index == |path|)
  {
    assert path[..|path|] == path;
    if t.Has(path) && index < |path| { PrefixesAreDirectories(t, path, index); }
  }

  /** Whatever entry the recorded resolution returns, following the path component by component reaches it. */
  lemma ResolvedIsReached(t: Tree, path: Path)
    requires WellShaped(t) && GroundedTargets(t) && ".." !in path && Resolve(t, path, {}).Some?
    ensures var v := Walk(t, [], path, MAX_SYMLINK_DEPTH);
            v.Some? && v.value.entry == Resolve(t, path, {}).value && Distinct(v.value.followed)
  {
    ResolveIsWalk(t, path, {});
  }

  // ---------------------------------------------------------------------------------------------
  // Inside the bundle, and the limits of the agreement
  // ---------------------------------------------------------------------------------------------

  lemma {:induction false} NormalizedShape(done: Path, rest: Path) returns (ups: nat)
    requires exists n: nat :: LeadingUps(done, n)
    ensures LeadingUps(Normalize(done, rest), ups)
    decreases |rest|
  {
    var n: nat :| LeadingUps(done, n);
    if rest == [] {
      ups := n;
    } else if rest[0] != ".." || done == [] || done[|done| - 1] == ".." {
      OneMore(done, n, rest[0]);
      ups := NormalizedShape(done + [rest[0]], rest[1..]);
    } else {
      OneLess(done, n);
      ups := NormalizedShape(Parent(done), rest[1..]);
    }
  }

  lemma {:induction false} UpsLast(n: nat)
    ensures |Ups(n)| == n && Ups(n + 1) == Ups(n) + [".."]
  {
    if n > 0 { UpsLast(n - 1); }
  }

  lemma LastPlain(path: Path, n: nat)
    requires LeadingUps(path, n) && n < |path|
    ensures path[|path| - 1] != ".."
  {
    assert path[n..][|path| - n - 1] in path[n..];
  }

  lemma UpsFirst(path: Path, n: nat)
    requires LeadingUps(path, n) && n > 0
    ensures path[0] == ".."
  {
    assert path[..n][0] == Ups(n)[0];
  }

  lemma OneMore(done: Path, n: nat, part: string)
    requires LeadingUps(done, n) && (part != ".." || done == [] || done[|done| - 1] == "..")
    ensures exists m: nat :: LeadingUps(done + [part], m)
  {
    var more := done + [part];
    if part == ".." {
      if n < |done| { LastPlain(done, n); }
      UpsLast(n);
      assert LeadingUps(more, n + 1);
    } else {
      assert more[..n] == done[..n] && more[n..] == done[n..] + [part];
      assert LeadingUps(more, n);
    }
  }

  lemma OneLess(done: Path, n: nat)
    requires LeadingUps(done, n) && done != [] && done[|done| - 1] != ".."
    ensures exists m: nat :: LeadingUps(Parent(done), m)
  {
    UpsLast(n);
    if n == |done| {
      assert done[..n] == done;
      UpsLast(n - 1);
    }
    assert Parent(done)[..n] == done[..n] && Parent(done)[n..] == done[n..][..|done| - 1 - n];
    assert LeadingUps(Parent(done), n);
  }

  /** Whatever a link's target, the path it is replaced with stays inside the bundle. */
  lemma LinksStayInside(t: Tree, p: Path)
    requires p in t.links && p != [] && LinkPath(t, p).Some?
    ensures ".." !in LinkPath(t, p).value
  {
    assert LeadingUps([], 0);
    var joined := Normalize([], Parent(p) + t.links[p]);
    var ups := NormalizedShape([], Parent(p) + t.links[p]);
    if ups > 0 { UpsFirst(joined, ups); }
    assert joined[0..] == joined;
  }

  function Misleading(): Tree {
    Tree({["f"], ["d", "f"]}, {[], ["d"], ["d", "e"]}, map[["s"] := ["d", "e"], ["t"] := ["s", "..", "f"]], _ => true)
  }

  /** A ".." after a link is taken from the link's name, not from where it points: the recorded resolution can
      return another entry than the walk. */
  lemma LaterParentsMislead() returns (t: Tree, path: Path)
    ensures WellShaped(t) && !GroundedTargets(t) && ".." !in path
    ensures Resolve(t, path, {}) == Some(File(["f"]))
    ensures Walk(t, [], path, MAX_SYMLINK_DEPTH) == Some(Visit(File(["d", "f"]), [["t"], ["s"]]))
  {
    hide Walk, WellShaped, GroundedTargets;
    t := Misleading();
    path := ["t"];
    MisleadingShape();
    MisleadingNormal();
    assert Parent(["t"]) == [];
    assert Resolve(t, ["f"], {["t"]}) == Some(File(["f"]));
    MisleadingWalk();
  }

  lemma MisleadingShape()
    ensures WellShaped(Misleading()) && !GroundedTargets(Misleading())
  {
    var t := Misleading();
    assert Parent(["f"]) == Parent(["d"]) == Parent(["s"]) == Parent(["t"]) == [] && Parent(["d", "f"]) == Parent(["d", "e"]) == ["d"];
    var target := t.links[["t"]];
    assert target == ["s", "..", "f"] && [] + ["s"] == ["s"] && target[1..] == ["..", "f"];
    assert !Grounded(t, ["s"], target[1..]);
    assert !Grounded(t, [], target);
  }

  lemma MisleadingNormal()
    ensures Normalize([], [] + ["s", "..", "f"]) == ["f"]
  {
    assert [] + ["s", "..", "f"] == ["s", "..", "f"];
    assert Normalize(["s"], ["..", "f"]) == Normalize([], ["f"]);
    assert Normalize([], ["f"]) == Normalize(["f"], []);
  }

  // Single steps of a walk.

  lemma Enter(t: Tree, here: Path, part: string, rest: Path, budget: nat)
    requires part != ".." && here + [part] in t.directories && here + [part] !in t.links
    ensures Walk(t, here, [part] + rest, budget) == Walk(t, here + [part], rest, budget)
  {
    assert ([part] + rest)[1..] == rest;
  }

  lemma Ascend(t: Tree, here: Path, rest: Path, budget: nat)
    requires here != []
    ensures Walk(t, here, [".."] + rest, budget) == Walk(t, Parent(here), rest, budget)
  {
    assert ([".."] + rest)[1..] == rest;
  }

  lemma Follow(t: Tree, here: Path, part: string, rest: Path, budget: nat, after: Visit)
    requires part != ".." && here + [part] in t.links && budget > 0
    requires Walk(t, here, t.links[here + [part]] + rest, budget - 1) == Some(after)
    ensures Walk(t, here, [part] + rest, budget) == Some(Visit(after.entry, [here + [part]] + after.followed))
  {
    assert ([part] + rest)[1..] == rest;
  }

  lemma Land(t: Tree, here: Path, part: string, budget: nat)
    requires part != ".." && here + [part] in t.files && here + [part] !in t.links && here + [part] !in t.directories
    ensures Walk(t, here, [part], budget) == Some(Visit(File(here + [part]), []))
  {
  }

  lemma MisleadingWalk()
    ensures Walk(Misleading(), [], ["t"], 16) == Some(Visit(File(["d", "f"]), [["t"], ["s"]]))
  {
    hide Walk;
    var t := Misleading();
    assert [] + ["d"] == ["d"] && ["d"] + ["e"] == ["d", "e"] && ["d"] + ["f"] == ["d", "f"];
    Land(t, ["d"], "f", 14);
    assert Parent(["d", "e"]) == ["d"];
    Ascend(t, ["d", "e"], ["f"], 14);
    Enter(t, ["d"], "e", [".."] + ["f"], 14);
    Enter(t, [], "d", ["e"] + ([".."] + ["f"]), 14);
    assert [] + ["s"] == ["s"] && ["d", "e"] + ["..", "f"] == ["d"] + (["e"] + ([".."] + ["f"]));
    Follow(t, [], "s", ["..", "f"], 15, Visit(File(["d", "f"]), []));
    assert [["s"]] + [] == [["s"]];
    assert [] + ["t"] == ["t"] && ["s", "..", "f"] + [] == ["s"] + ["..", "f"];
    Follow(t, [], "t", [], 16, Visit(File(["d", "f"]), [["s"]]));
    assert ["t"] + [] == ["t"] && [["t"]] + [["s"]] == [["t"], ["s"]];
  }

  function Repeated(): Tree {
    Tree({["d", "y"]}, {[], ["d"]}, map[["a"] := ["d"], ["d", "x"] := ["..", "a", "y"]], _ => true)
  }

  /** A path that meets the same link twice is refused as a cycle, although following it ends at a file. */
  lemma RepeatedLinksAreRefused() returns (t: Tree, path: Path)
    ensures WellShaped(t) && PlainTargets(t) && GroundedTargets(t) && ".." !in path
    ensures Walk(t, [], path, MAX_SYMLINK_DEPTH) == Some(Visit(File(["d", "y"]), [["a"], ["d", "x"], ["a"]]))
    ensures Resolve(t, path, {}).None?
  {
    t := Repeated();
    path := ["a", "x"];
    hide Walk, Resolve, WellShaped, GroundedTargets;
    RepeatedShape();
    PlainIsGrounded(t);
    RepeatedWalk();
    var followed := [["a"], ["d", "x"], ["a"]];
    assert followed[0] == followed[2];
    ResolveIsWalk(t, path, {});
  }

  lemma RepeatedShape()
    ensures WellShaped(Repeated()) && PlainTargets(Repeated())
  {
    assert Parent(["d"]) == Parent(["a"]) == [] && Parent(["d", "x"]) == Parent(["d", "y"]) == ["d"];
    assert LeadingUps(["d"], 0);
    assert Ups(1) == [".."] && ["..", "a", "y"][..1] == [".."] && ["..", "a", "y"][1..] == ["a", "y"];
    assert LeadingUps(["..", "a", "y"], 1);
  }

  lemma RepeatedWalk()
    ensures Walk(Repeated(), [], ["a", "x"], 16) == Some(Visit(File(["d", "y"]), [["a"], ["d", "x"], ["a"]]))
  {
    hide Walk;
    var t := Repeated();
    assert [] + ["d"] == ["d"] && [] + ["a"] == ["a"] && ["d"] + ["y"] == ["d", "y"] && ["d"] + ["x"] == ["d", "x"];
    var file := File(["d", "y"]);
    Land(t, ["d"], "y", 13);
    Enter(t, [], "d", ["y"], 13);
    Follow(t, [], "a", ["y"], 14, Visit(file, []));
    assert [["a"]] + [] == [["a"]] && Parent(["d"]) == [];
    Ascend(t, ["d"], ["a"] + ["y"], 14);
    assert ["..", "a", "y"] + [] == [".."] + (["a"] + ["y"]);
    Follow(t, ["d"], "x", [], 15, Visit(file, [["a"]]));
    assert [["d", "x"]] + [["a"]] == [["d", "x"], ["a"]] && ["x"] + [] == ["x"];
    Enter(t, [], "d", ["x"], 15);
    Follow(t, [], "a", ["x"], 16, Visit(file, [["d", "x"], ["a"]]));
    assert [["a"]] + [["d", "x"], ["a"]] == [["a"], ["d", "x"], ["a"]] && ["a"] + ["x"] == ["a", "x"];
  }
}
