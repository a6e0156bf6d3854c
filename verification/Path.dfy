/** Splitting paths and looking them up. */
module Path {
  import opened Collections

  const NAME_MAX := 60

  /** The length of the name at the start of `s`: where `strchrnul(s, '/')` stops. */
  function NameLength(s: string): (n: nat)
    ensures n <= |s| && (forall i :: 0 <= i < n ==> s[i] != '/') && (n < |s| ==> s[n] == '/')
  {
    if s == "" || s[0] == '/' then 0 else 1 + NameLength(s[1..])
  }

  /** The names in a path, whatever the number of slashes between them. */
  function Components(s: string): (r: seq<string>)
    decreases |s|
  {
    if s == "" then []
    else if s[0] == '/' then Components(s[1..])
    else [s[..NameLength(s)]] + Components(s[NameLength(s)..])
  }

  ghost predicate Slashes(s: string) {
    forall i :: 0 <= i < |s| ==> s[i] == '/'
  }

  ghost predicate NoSlash(s: string) {
    forall i :: 0 <= i < |s| ==> s[i] != '/'
  }

  lemma {:induction false} SlashesOnly(s: string)
    requires Slashes(s)
    ensures Components(s) == []
    decreases |s|
  {
    if s != "" { SlashesOnly(s[1..]); }
  }

  lemma {:induction false} NameThenSlash(a: string, b: string)
    requires a != "" && NoSlash(a) && (b == "" || b[0] == '/')
    ensures NameLength(a + b) == |a|
    decreases |a|
  {
    if |a| > 1 {
      NameThenSlash(a[1..], b);
      assert (a + b)[1..] == a[1..] + b;
    } else {
      assert (a + b)[1..] == b;
    }
  }

  lemma OneName(a: string, b: string)
    requires a != "" && NoSlash(a) && (b == "" || b[0] == '/')
    ensures Components(a + b) == [a] + Components(b)
  {
    NameThenSlash(a, b);
    assert (a + b)[..|a|] == a && (a + b)[|a|..] == b;
  }

  /** A slash separates: the names of the whole are those before it and those from it on. */
  lemma {:induction false} SlashSeparates(a: string, b: string)
    requires b != "" && b[0] == '/'
    ensures Components(a + b) == Components(a) + Components(b)
    decreases |a|
  {
    if a == "" {
      assert a + b == b;
    } else if a[0] == '/' {
      assert (a + b)[1..] == a[1..] + b;
      SlashSeparates(a[1..], b);
    } else {
      var n := NameLength(a);
      var name, rest := a[..n], a[n..];
      assert a == name + rest && a + b == name + (rest + b);
      OneName(name, rest);
      OneName(name, rest + b);
      SlashSeparates(rest, b);
    }
  }

  lemma {:induction false} LeadingSlashes(a: string, b: string)
    requires Slashes(a)
    ensures Components(a + b) == Components(b)
    decreases |a|
  {
    if a == "" {
      assert a + b == b;
    } else {
      assert (a + b)[1..] == a[1..] + b;
      LeadingSlashes(a[1..], b);
    }
  }

  /** A path cut into a directory part, slashes, a last name and trailing slashes. */
  lemma LastComponent(dir: string, gap: string, name: string, tail: string)
    requires Slashes(gap) && gap != "" && name != "" && NoSlash(name) && Slashes(tail)
    ensures Components(dir + gap + name + tail) == Components(dir) + [name]
  {
    var rest := gap + (name + tail);
    assert dir + gap + name + tail == dir + rest;
    SlashSeparates(dir, rest);
    LeadingSlashes(gap, name + tail);
    OneName(name, tail);
    SlashesOnly(tail);
  }

  /** The string a buffer holds: everything before the first NUL. */
  function Text(b: seq<char>): (r: string)
    ensures |r| <= |b| && r == b[..|r|] && (|r| < |b| ==> b[|r|] == '\0') && '\0' !in r
  {
    if b == [] || b[0] == '\0' then [] else [b[0]] + Text(b[1..])
  }

  lemma {:induction false} TextOf(b: seq<char>, s: string)
    requires |s| < |b| && b[..|s|] == s && b[|s|] == '\0' && '\0' !in s
    ensures Text(b) == s
    decreases |s|
  {
    if s != "" {
      assert b[0] == s[0] && b[1..][..|s| - 1] == b[1..|s|] == s[1..];
      TextOf(b[1..], s[1..]);
    }
  }

  /** `strlen` */
  method Length(buf: array<char>) returns (n: nat)
    requires '\0' in buf[..]
    ensures n == |Text(buf[..])| < buf.Length && buf[n] == '\0'
  {
    n := 0;
    while buf[n] != '\0'
      invariant n < buf.Length && n <= |Text(buf[..])|
      invariant '\0' !in buf[..n]
      decreases buf.Length - n
    {
      n := n + 1;
    }
  }

  /** Positions `a` to `b` of a path hold nothing but slashes. */
  ghost predicate Gap(path: string, a: nat, b: nat) {
    b <= |path| && forall k :: a <= k < b ==> path[k] == '/'
  }

  /** Positions `a` to `b` of a path hold no slash. */
  ghost predicate Word(path: string, a: nat, b: nat) {
    b <= |path| && forall k :: a <= k < b ==> path[k] != '/'
  }

  lemma Parts(path: string, d: nat, s: nat, e: nat)
    requires d < s < e <= |path| && Gap(path, d, s) && Word(path, s, e) && Gap(path, e, |path|)
    ensures Components(path) == Components(path[..d]) + [path[s..e]]
  {
    assert path == path[..d] + path[d..s] + path[s..e] + path[e..];
    LastComponent(path[..d], path[d..s], path[s..e], path[e..]);
  }

  lemma OnlyName(path: string, e: nat)
    requires 0 < e <= |path| && Word(path, 0, e) && Gap(path, e, |path|)
    ensures Components(path) == [path[..e]]
  {
    assert path == path[..e] + path[e..];
    OneName(path[..e], path[e..]);
    SlashesOnly(path[e..]);
  }

  lemma {:induction false} HasName(s: string, i: nat)
    requires i < |s| && s[i] != '/'
    ensures Components(s) != []
    decreases |s|
  {
    if s[0] == '/' {
      HasName(s[1..], i - 1);
    }
  }

  /** The directory part of a path: its names but the last, absolute exactly when the path is. */
  ghost predicate IsDirectoryOf(r: string, path: string) {
    var names := Components(path);
    if path == "" then r == "."
    else if names == [] then r == "/"
    else if |names| == 1 && path[0] != '/' then r == "."
    else r != "" && (r[0] == '/' <==> path[0] == '/') && Components(r) == names[..|names| - 1]
  }

  /** The base name of a path: its last name. */
  ghost predicate IsBaseOf(r: string, path: string) {
    var names := Components(path);
    if path == "" then r == "." else if names == [] then r == "/" else r == names[|names| - 1]
  }

  lemma DirectoryOfRoot(path: string)
    requires path != "" && Gap(path, 0, |path|)
    ensures IsDirectoryOf("/", path) && IsBaseOf("/", path)
  {
    SlashesOnly(path);
  }

  lemma DirectoryOfName(path: string, e: nat)
    requires 0 < e <= |path| && Word(path, 0, e) && Gap(path, e, |path|)
    ensures IsDirectoryOf(".", path) && IsBaseOf(path[..e], path)
  {
    OnlyName(path, e);
  }

  lemma DirectoryIsRoot(path: string, s: nat, e: nat)
    requires 0 < s < e <= |path| && Gap(path, 0, s) && Word(path, s, e) && Gap(path, e, |path|)
    ensures IsDirectoryOf("/", path)
  {
    Parts(path, 0, s, e);
    SlashesOnly("/");
    SlashesOnly(path[..0]);
  }

  lemma DirectoryIsPrefix(path: string, d: nat, s: nat, e: nat)
    requires 0 < d < s < e <= |path| && Gap(path, d, s) && Word(path, s, e) && Gap(path, e, |path|)
    requires path[d - 1] != '/'
    ensures IsDirectoryOf(path[..d], path)
  {
    Parts(path, d, s, e);
    HasName(path[..d], d - 1);
  }

  /** `dirname`, which cuts the path off in its buffer. */
  method Dirname(buf: array<char>) returns (r: string)
    requires '\0' in buf[..]
    modifies buf
    ensures IsDirectoryOf(r, old(Text(buf[..])))
  {
    ghost var path := Text(buf[..]);
    var n := Length(buf);
    assert n == |path| && forall k :: 0 <= k < n ==> buf[k] == path[k];
    hide Components, IsDirectoryOf, Text;
    if n == 0 {
      assert IsDirectoryOf(".", path) by { Empty(path); }
      return ".";
    }
    var i := n - 1;
    while buf[i] == '/'
      invariant 0 <= i < n && Gap(path, i + 1, n)
      decreases i
    {
      if i == 0 {
        DirectoryOfRoot(path);
        return "/";
      }
      i := i - 1;
    }
    r := CutLastName(buf, path, i + 1);
  }

  lemma Empty(path: string)
    requires path == ""
    ensures IsDirectoryOf(".", path) && IsBaseOf(".", path)
  {
  }

  /** The rest of `dirname`, once the trailing slashes are passed. */
  method CutLastName(buf: array<char>, ghost path: string, e: nat) returns (r: string)
    requires 0 < e <= |path| < buf.Length && Gap(path, e, |path|) && path[e - 1] != '/' && '\0' !in path
    requires forall k :: 0 <= k < |path| ==> buf[k] == path[k]
    modifies buf
    ensures IsDirectoryOf(r, path)
  {
    hide Components, IsDirectoryOf, Text;
    var i := e - 1;
    while buf[i] != '/'
      invariant 0 <= i < e && Word(path, i + 1, e) && (i == e - 1 ==> path[i] != '/')
      decreases i
    {
      if i == 0 {
        DirectoryOfName(path, e);
        return ".";
      }
      i := i - 1;
    }
    ghost var s := i + 1;
    while buf[i] == '/'
      invariant 0 <= i < s && Gap(path, i + 1, s) && (i == s - 1 ==> path[i] == '/')
      decreases i
    {
      if i == 0 {
        DirectoryIsRoot(path, s, e);
        return "/";
      }
      i := i - 1;
    }
    DirectoryIsPrefix(path, i + 1, s, e);
    buf[i + 1] := '\0';
    assert buf[..i + 1] == path[..i + 1];
    TextOf(buf[..], path[..i + 1]);
    r := buf[..i + 1];
  }

  /** `basename`, which blanks the trailing slashes and returns a pointer into the buffer. */
  method Basename(buf: array<char>) returns (r: string)
    requires '\0' in buf[..]
    modifies buf
    ensures IsBaseOf(r, old(Text(buf[..])))
  {
    ghost var path := Text(buf[..]);
    var n := Length(buf);
    assert n == |path| && forall k :: 0 <= k < n ==> buf[k] == path[k];
    hide Components, IsBaseOf, Text;
    if n == 0 {
      assert IsBaseOf(".", path) by { Empty(path); }
      return ".";
    }
    var i := n - 1;
    while i > 0 && buf[i] == '/'
      invariant 0 <= i < n && Gap(path, i + 1, n)
      invariant forall k :: 0 <= k <= i ==> buf[k] == path[k]
    {
      buf[i] := '\0';
      i := i - 1;
    }
    var e := i + 1;
    while i > 0 && buf[i - 1] != '/'
      invariant 0 <= i < e && (Word(path, i, e) || i == 0 == e - 1)
    {
      i := i - 1;
    }
    r := buf[i..e];
    assert r == path[i..e];
    BaseIs(path, i, e);
  }

  lemma BaseIs(path: string, s: nat, e: nat)
    requires s < e <= |path| && Gap(path, e, |path|) && (s > 0 ==> path[s - 1] == '/')
    requires Word(path, s, e) || s == 0 == e - 1
    ensures IsBaseOf(path[s..e], path)
  {
    if !Word(path, s, e) {
      DirectoryOfRoot(path);
    } else if s == 0 {
      DirectoryOfName(path, e);
    } else {
      Parts(path, s - 1, s, e);
    }
  }

  datatype Entry = Entry(name: string, node: nat)

  /** Entry `i` is the first one with the given name. */
  ghost predicate IsFirst(entries: seq<Entry>, name: string, i: int) {
    0 <= i < |entries| && entries[i].name == name && forall j :: 0 <= j < i ==> entries[j].name != name
  }

  /** The first entry of a directory with the given name. */
  function FindEntry(entries: seq<Entry>, name: string): (r: Option<nat>)
    ensures r.None? <==> forall i :: 0 <= i < |entries| ==> entries[i].name != name
    ensures r.Some? ==> exists i :: IsFirst(entries, name, i) && entries[i].node == r.value
  {
    if entries == [] then None
    else if entries[0].name == name then
      assert IsFirst(entries, name, 0);
      Some(entries[0].node)
    else
      assert forall i :: IsFirst(entries[1..], name, i) ==> IsFirst(entries, name, i + 1);
      FindEntry(entries[1..], name)
  }

  /** What one name leads to from a directory: nothing if it is too long or not there. */
  function Child(tree: map<nat, seq<Entry>>, node: nat, name: string): (r: Option<nat>)
    ensures r.Some? <==> |name| <= 60 && node in tree && exists i :: IsFirst(tree[node], name, i)
    ensures r.Some? ==> exists i :: IsFirst(tree[node], name, i) && tree[node][i].node == r.value
  {
    if |name| > NAME_MAX || node !in tree then None else FindEntry(tree[node], name)
  }

  /** Following a list of names. */
  function Follow(tree: map<nat, seq<Entry>>, node: nat, names: seq<string>): (r: Option<nat>)
    decreases |names|
  {
    if names == [] then Some(node)
    else
      var next := Child(tree, node, names[0]);
      if next.None? then None else Follow(tree, next.value, names[1..])
  }

  /** What looking up a path means. */
  function Resolve(tree: map<nat, seq<Entry>>, root: nat, path: string): (r: Option<nat>) {
    if path == "" || path[0] != '/' then None else Follow(tree, root, Components(path))
  }

  /** Nodes from a directory on, each the child of the one before by the next name. */
  ghost predicate Walk(tree: map<nat, seq<Entry>>, nodes: seq<nat>, names: seq<string>) {
    && |nodes| == |names| + 1
    && forall i :: 0 <= i < |names| ==> Child(tree, nodes[i], names[i]) == Some(nodes[i + 1])
  }

  /** A list of names leads to a node exactly if a walk does. */
  lemma {:induction false} FollowIsWalk(tree: map<nat, seq<Entry>>, node: nat, names: seq<string>, end: nat)
    ensures Follow(tree, node, names) == Some(end) <==>
            exists nodes :: Walk(tree, nodes, names) && nodes[0] == node && nodes[|names|] == end
    decreases |names|
  {
    hide Child;
    if names == [] {
      assert node == end ==> Walk(tree, [node], names);
    } else {
      var rest := names[1..];
      var next := Child(tree, node, names[0]);
      if next.Some? { FollowIsWalk(tree, next.value, rest, end); }
      if Follow(tree, node, names) == Some(end) {
        var nodes :| Walk(tree, nodes, rest) && nodes[0] == next.value && nodes[|rest|] == end;
        var all := [node] + nodes;
        forall i | 0 <= i < |names| ensures Child(tree, all[i], names[i]) == Some(all[i + 1]) {
          if i > 0 { assert names[i] == rest[i - 1] && all[i] == nodes[i - 1]; }
        }
        assert Walk(tree, all, names);
      }
      if nodes :| Walk(tree, nodes, names) && nodes[0] == node && nodes[|names|] == end {
        assert Child(tree, nodes[0], names[0]) == Some(nodes[1]);
        forall i | 0 <= i < |rest| ensures Child(tree, nodes[1..][i], rest[i]) == Some(nodes[1..][i + 1]) {
          assert Child(tree, nodes[i + 1], names[i + 1]) == Some(nodes[i + 2]);
        }
        assert Walk(tree, nodes[1..], rest);
      }
    }
  }

  lemma {:induction false} FollowLast(tree: map<nat, seq<Entry>>, node: nat, names: seq<string>, last: string)
    ensures var dir := Follow(tree, node, names);
            Follow(tree, node, names + [last]) == if dir.None? then None else Child(tree, dir.value, last)
    decreases |names|
  {
    if names == [] {
      assert names + [last] == [last];
    } else {
      assert (names + [last])[1..] == names[1..] + [last];
      var next := Child(tree, node, names[0]);
      if next.Some? {
        FollowLast(tree, next.value, names[1..], last);
      }
    }
  }

  /** A search through the entries of one directory, as the walk does it. */
  method Search(entries: seq<Entry>, name: string) returns (r: Option<nat>)
    ensures r == FindEntry(entries, name)
  {
    r := None;
    var i := 0;
    while i < |entries|
      invariant 0 <= i <= |entries|
      invariant FindEntry(entries, name) == FindEntry(entries[i..], name)
    {
      if entries[i].name == name {
        return Some(entries[i].node);
      }
      assert entries[i..][1..] == entries[i + 1..];
      i := i + 1;
    }
  }

  /** `strchrnul` from position `p`. */
  method NextSlash(path: string, p: nat) returns (n: nat)
    requires p <= |path|
    ensures n == p + NameLength(path[p..])
  {
    n := p;
    while n < |path| && path[n] != '/'
      invariant p <= n <= |path|
      invariant p + NameLength(path[p..]) == n + NameLength(path[n..])
    {
      assert path[n..][1..] == path[n + 1..];
      n := n + 1;
    }
  }

  /** `lookup_dentry` */
  method Lookup(tree: map<nat, seq<Entry>>, root: nat, path: string) returns (r: Option<nat>)
    ensures r == Resolve(tree, root, path)
  {
    if path == "" || path[0] != '/' {
      return None;
    }
    var node, p := root, 0;
    while p < |path|
      invariant 0 <= p <= |path| && (p < |path| ==> path[p] == '/')
      invariant Resolve(tree, root, path) == Follow(tree, node, Components(path[p..]))
      decreases |path| - p
    {
      assert path[p..][1..] == path[p + 1..];
      p := p + 1;
      var n := NextSlash(path, p);
      if n != p {
        ghost var rest := path[p..];
        assert rest[..n - p] == path[p..n] && rest[n - p..] == path[n..];
        if n - p > NAME_MAX || node !in tree {
          return None;
        }
        var child := Search(tree[node], path[p..n]);
        if child.None? {
          return None;
        }
        assert ([path[p..n]] + Components(path[n..]))[1..] == Components(path[n..]);
        node := child.value;
        p := n;
      }
    }
    r := Some(node);
  }

  /** `strcpy` */
  method Copy(buf: array<char>, s: string)
    requires |s| < buf.Length && '\0' !in s
    modifies buf
    ensures Text(buf[..]) == s && '\0' in buf[..]
  {
    for i := 0 to |s|
      invariant buf[..i] == s[..i]
    {
      buf[i] := s[i];
    }
    buf[|s|] := '\0';
    assert buf[..|s|] == s;
    TextOf(buf[..], s);
  }

  /**
   * Looking up the directory part and then the base name in it, as creating a
   * file does, is looking up the path, however many slashes it has.
   */
  method LookupInParent(tree: map<nat, seq<Entry>>, root: nat, path: string, buf: array<char>) returns (r: Option<nat>)
    requires |path| < buf.Length && '\0' !in path
    requires path != "" && path[0] == '/' && Components(path) != []
    modifies buf
    ensures r == Resolve(tree, root, path)
  {
    Copy(buf, path);
    var dir := Dirname(buf);
    var parent := Lookup(tree, root, dir);
    Copy(buf, path);
    var base := Basename(buf);
    ghost var front := Components(dir);
    assert Components(path) == front + [base];
    FollowLast(tree, root, front, base);
    r := if parent.None? then None else Child(tree, parent.value, base);
  }
}
