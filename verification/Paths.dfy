/** Slash-separated paths inside an application bundle. */
module Paths {
  const MAX_PATH_BYTES: nat := 1024

  /** What the Unicode tables decide: case folding, canonical composition and the length in UTF-8. */
  datatype Text = Text(fold: string -> string, compose: string -> string, encodedLength: string -> nat)

  function IndexOf(s: string, c: char): (i: nat)
    ensures i <= |s| && (i < |s| ==> s[i] == c)
    ensures forall k :: 0 <= k < i ==> s[k] != c
  {
    if s == "" || s[0] == c then 0 else 1 + IndexOf(s[1..], c)
  }

  function Split(s: string): (parts: seq<string>)
    ensures |parts| >= 1
    decreases |s|
  {
    var i := IndexOf(s, '/');
    if i == |s| then [s] else [s[..i]] + Split(s[i + 1..])
  }

  function Join(parts: seq<string>): string {
    if parts == [] then "" else if |parts| == 1 then parts[0] else parts[0] + "/" + Join(parts[1..])
  }

  predicate Slashless(parts: seq<string>) {
    forall i :: 0 <= i < |parts| ==> '/' !in parts[i]
  }

  /** Splitting a path and joining the parts gives the path back; no part holds a slash. */
  lemma {:induction false} SplitJoin(s: string)
    ensures Join(Split(s)) == s && Slashless(Split(s))
    decreases |s|
  {
    hide Join, Slashless;
    var i := IndexOf(s, '/');
    if i < |s| {
      SplitJoin(s[i + 1..]);
      JoinCons(s[..i], Split(s[i + 1..]));
      assert s == s[..i] + "/" + s[i + 1..];
    } else {
      JoinOne(s);
    }
  }

  lemma JoinCons(first: string, parts: seq<string>)
    requires parts != []
    ensures Join([first] + parts) == first + "/" + Join(parts)
    ensures '/' !in first && Slashless(parts) ==> Slashless([first] + parts)
  {
    assert ([first] + parts)[1..] == parts;
  }

  lemma JoinOne(part: string)
    ensures Join([part]) == part && ('/' !in part ==> Slashless([part]))
  {
  }

  /** Joining slashless parts and splitting gives the parts back. */
  lemma {:induction false} JoinSplit(parts: seq<string>)
    requires parts != [] && Slashless(parts)
    ensures Split(Join(parts)) == parts
    decreases |parts|
  {
    var s := Join(parts);
    if |parts| == 1 {
      assert IndexOf(s, '/') == |s|;
    } else {
      assert s[|parts[0]|] == '/';
      assert forall k :: 0 <= k < |parts[0]| ==> s[k] == parts[0][k];
      assert IndexOf(s, '/') == |parts[0]|;
      assert s[..|parts[0]|] == parts[0] && s[|parts[0]| + 1..] == Join(parts[1..]);
      JoinSplit(parts[1..]);
    }
  }

  /** What stands before a slash of a joined path is the path of the first parts. */
  lemma {:induction false} CutAtSlash(parts: seq<string>, i: nat) returns (k: nat)
    requires Slashless(parts) && i < |Join(parts)| && Join(parts)[i] == '/'
    ensures 1 <= k < |parts| && Join(parts)[..i] == Join(parts[..k])
    decreases |parts|
  {
    assert |parts| > 1;
    var first := |parts[0]|;
    assert Join(parts) == parts[0] + "/" + Join(parts[1..]);
    if i == first {
      k := 1;
      assert parts[..1] == [parts[0]];
    } else {
      assert forall j :: 0 <= j < first ==> Join(parts)[j] == parts[0][j];
      assert i > first;
      var deeper := CutAtSlash(parts[1..], i - first - 1);
      k := deeper + 1;
      assert parts[..k][1..] == parts[1..][..deeper];
      assert Join(parts)[..i] == parts[0] + "/" + Join(parts[1..])[..i - first - 1];
    }
  }

  predicate Printable(s: string) {
    forall i :: 0 <= i < |s| ==> s[i] as int >= 32 && s[i] as int != 127
  }

  /** No backslash, no zero, nothing unprintable. */
  predicate Clean(s: string) {
    '\\' !in s && '\0' !in s && Printable(s)
  }

  lemma {:induction false} JoinClean(parts: seq<string>)
    requires forall i :: 0 <= i < |parts| ==> Clean(parts[i])
    ensures Clean(Join(parts))
    decreases |parts|
  {
    if |parts| > 1 {
      JoinClean(parts[1..]);
      var rest := Join(parts[1..]);
      var s := parts[0] + "/" + rest;
      forall k | 0 <= k < |s| ensures s[k] as int >= 32 && s[k] as int != 127 && s[k] != '\\' && s[k] != '\0' {
        if k < |parts[0]| { assert s[k] == parts[0][k] && parts[0][k] in parts[0]; }
        else if k > |parts[0]| { assert s[k] == rest[k - |parts[0]| - 1] && rest[k - |parts[0]| - 1] in rest; }
      }
    }
  }

  predicate ComponentOk(text: Text, part: string) {
    && 0 < |part| <= MAX_PATH_BYTES
    && '/' !in part && '\\' !in part && '\0' !in part && part != "." && part != ".."
    && text.compose(part) == part && Printable(part)
  }

  predicate RelativeOk(text: Text, path: string) {
    && text.encodedLength(path) <= MAX_PATH_BYTES
    && path != "" && path[0] != '/' && '\\' !in path && '\0' !in path && text.compose(path) == path
    && forall i :: 0 <= i < |Split(path)| ==> ComponentOk(text, Split(path)[i])
  }
}
