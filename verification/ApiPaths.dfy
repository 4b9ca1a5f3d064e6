/** The two parsers of Kubernetes API request paths: one splits the whole path and reads it by
    index, the other cuts it segment by segment. */
module ApiPaths {
  import opened DepKeys
  import opened ListInterest

  // ---- strings -------------------------------------------------------------------------

  /** The first position of a character; the length when there is none. */
  function IndexOf(s: string, c: char): (i: nat)
    ensures i <= |s| && c !in s[..i] && (i < |s| ==> s[i] == c)
  {
    if s == [] || s[0] == c then 0
    else
      var i := 1 + IndexOf(s[1..], c);
      assert s[..i] == [s[0]] + s[1..][..i - 1];
      i
  }

  lemma IndexUnique(a: string, c: char, b: string)
    requires c !in a
    ensures IndexOf(a + [c] + b, c) == |a|
  {
    assert (a + [c] + b)[|a|] == c;
    assert forall i | 0 <= i < |a| :: (a + [c] + b)[i] == a[i];
  }

  lemma IndexNone(s: string, c: char)
    requires c !in s
    ensures IndexOf(s, c) == |s|
  {
  }

  /** What is before and after the first separator, and whether there is one. */
  function Cut(s: string, c: char): (string, string, bool) {
    var i := IndexOf(s, c);
    if i < |s| then (s[..i], s[i + 1..], true) else (s, "", false)
  }

  lemma CutAt(a: string, c: char, b: string)
    requires c !in a
    ensures Cut(a + [c] + b, c) == (a, b, true)
  {
    IndexUnique(a, c, b);
    assert (a + [c] + b)[..|a|] == a && (a + [c] + b)[|a| + 1..] == b;
  }

  function Split(s: string, c: char): (parts: seq<string>)
    ensures |parts| >= 1
    decreases |s|
  {
    var i := IndexOf(s, c);
    if i < |s| then [s[..i]] + Split(s[i + 1..], c) else [s]
  }

  function Join(segs: seq<string>): string {
    if segs == [] then ""
    else if |segs| == 1 then segs[0]
    else segs[0] + ['/'] + Join(segs[1..])
  }

  function TrimRight(s: string, c: char): string {
    if s != [] && s[|s| - 1] == c then TrimRight(s[..|s| - 1], c) else s
  }

  predicate HasPrefix(s: string, p: string) { p <= s }

  function TrimPrefix(s: string, p: string): string { if HasPrefix(s, p) then s[|p|..] else s }

  function TrimSuffix(s: string, c: char): string {
    if s != [] && s[|s| - 1] == c then s[..|s| - 1] else s
  }

  predicate HasTemplate(s: string) {
    exists i: nat | i + 1 < |s| :: s[i] == '$' && s[i + 1] == '{'
  }

  // ---- the parsers ---------------------------------------------------------------------

  /** The fragment is cut first, then the query. */
  function SplitURI(p: string): (string, string, bool) {
    Cut(Cut(p, '#').0, '?')
  }

  datatype Target = Target(gvr: GVR, namespace: string, name: string)

  /** A namespace interposes two segments, unless the namespaces themselves are addressed. */
  predicate Scoped(parts: seq<string>) { |parts| >= 3 && parts[0] == "namespaces" }

  function FromParts(group: string, version: string, parts: seq<string>): Target
    requires |parts| >= 1
  {
    if Scoped(parts) then
      Target(GVR(group, version, parts[2]), parts[1], if |parts| >= 4 then parts[3] else "")
    else
      Target(GVR(group, version, parts[0]), "", if |parts| >= 2 then parts[1] else "")
  }

  /** The part of the splitting parser after the query, the slashes and the template check. */
  function SplitPath(path: string): Option<Target> {
    if HasPrefix(path, "/api/") then
      var parts := Split(TrimPrefix(path, "/api/"), '/');
      if |parts| < 2 then None else Some(FromParts("", parts[0], parts[1..]))
    else if HasPrefix(path, "/apis/") then
      var parts := Split(TrimPrefix(path, "/apis/"), '/');
      if |parts| < 3 then None else Some(FromParts(parts[0], parts[1], parts[2..]))
    else None
  }

  function ParsePath(uri: string): Option<Target> {
    var path := TrimRight(SplitURI(uri).0, '/');
    if HasTemplate(path) then None else SplitPath(path)
  }

  /** The first segment and the rest; none of an empty string. */
  function CutSegment(p: string): Option<(string, string)> {
    if p == "" then None else var (seg, rest, _) := Cut(p, '/'); Some((seg, rest))
  }

  datatype Resource = Resource(gvr: GVR, collection: bool)

  /** From the resource segment on. */
  function CutResource(group: string, version: string, p: string): Option<Resource> {
    match CutSegment(p)
    case None => None
    case Some((resource, rest)) =>
      var scoped := if resource == "namespaces" then CutSegment(rest) else None;
      if scoped.Some? && CutSegment(scoped.value.1).None? then Some(Resource(GVR(group, version, resource), false))
      else
        var (r, tail) := if scoped.Some? then CutSegment(scoped.value.1).value else (resource, rest);
        if r == "" then None else Some(Resource(GVR(group, version, r), tail == ""))
  }

  /** From the root segment on. */
  function CutPath(p: string): Option<Resource> {
    match CutSegment(p)
    case None => None
    case Some((root, rest)) =>
      if root == "api" then
        (match CutSegment(rest)
         case None => None
         case Some((version, rest1)) => CutResource("", version, rest1))
      else if root == "apis" then
        (match CutSegment(rest)
         case None => None
         case Some((group, rest1)) =>
           match CutSegment(rest1)
           case None => None
           case Some((version, rest2)) => CutResource(group, version, rest2))
      else None
  }

  function ParseResourcePath(path: string): Option<Resource> {
    CutPath(TrimSuffix(TrimPrefix(path, "/"), '/'))
  }

  // ---- paths as segments ---------------------------------------------------------------

  /** A segment without separator, query, fragment or template; it may be empty. */
  predicate Plain(seg: string) {
    '/' !in seg && '#' !in seg && '?' !in seg && !HasTemplate(seg)
  }

  /** Plain segments of which the last is not empty. */
  predicate Readable(segs: seq<string>) {
    segs != [] && segs[|segs| - 1] != "" && forall i | 0 <= i < |segs| :: Plain(segs[i])
  }

  function Slashes(n: nat): string { if n == 0 then [] else Slashes(n - 1) + ['/'] }

  /** A path of these segments with some trailing slashes. */
  function PathOf(segs: seq<string>, slashes: nat): string {
    ['/'] + Join(segs) + Slashes(slashes)
  }

  /** Where the resource part of a path starts: group, version and what follows. */
  function PartsOf(segs: seq<string>): Option<(string, string, seq<string>)> {
    if segs == [] then None
    else if segs[0] == "api" && |segs| >= 3 then Some(("", segs[1], segs[2..]))
    else if segs[0] == "apis" && |segs| >= 4 then Some((segs[1], segs[2], segs[3..]))
    else None
  }

  function AfterResource(parts: seq<string>): seq<string>
    requires |parts| >= 1
  {
    if Scoped(parts) then parts[3..] else parts[1..]
  }

  /** What the splitting parser reads off the segments. */
  function Meaning(segs: seq<string>): Option<Target> {
    match PartsOf(segs)
    case None => None
    case Some((group, version, parts)) => Some(FromParts(group, version, parts))
  }

  /** What the cutting parser reads off them. */
  function CutMeaning(segs: seq<string>): Option<Resource> {
    match PartsOf(segs)
    case None => None
    case Some((group, version, parts)) =>
      var t := FromParts(group, version, parts);
      if t.gvr.resource == "" then None else Some(Resource(t.gvr, AfterResource(parts) == []))
  }

  lemma ReadableTail(segs: seq<string>, n: nat)
    requires Readable(segs) && n < |segs|
    ensures Readable(segs[n..])
  {
    assert segs[n..][|segs[n..]| - 1] == segs[|segs| - 1];
    forall i | 0 <= i < |segs[n..]| ensures Plain(segs[n..][i]) { assert Plain(segs[n + i]); }
  }

  lemma {:induction false} JoinFree(segs: seq<string>, c: char)
    requires c != '/' && forall i | 0 <= i < |segs| :: c !in segs[i]
    ensures c !in Join(segs)
    decreases |segs|
  {
    if |segs| > 1 { JoinFree(segs[1..], c); }
  }

  lemma SplitFirst(seg: string, rest: string)
    requires '/' !in seg
    ensures Split(seg + ['/'] + rest, '/') == [seg] + Split(rest, '/')
  {
    var s := seg + ['/'] + rest;
    IndexUnique(seg, '/', rest);
    assert s[..|seg|] == seg && s[|seg| + 1..] == rest;
  }

  /** Splitting undoes joining, empty segments included. */
  lemma {:induction false} SplitJoin(segs: seq<string>)
    requires segs != [] && forall i | 0 <= i < |segs| :: '/' !in segs[i]
    ensures Split(Join(segs), '/') == segs
    decreases |segs|
  {
    if |segs| == 1 {
      IndexNone(segs[0], '/');
    } else {
      SplitFirst(segs[0], Join(segs[1..]));
      SplitJoin(segs[1..]);
      assert segs == [segs[0]] + segs[1..];
    }
  }

  /** The last character of a joined path belongs to its last segment. */
  lemma {:induction false} JoinLast(segs: seq<string>)
    requires Readable(segs)
    ensures Join(segs) != "" && Join(segs)[|Join(segs)| - 1] != '/'
    decreases |segs|
  {
    if |segs| == 1 {
      assert Plain(segs[0]) && segs[0][|segs[0]| - 1] in segs[0];
    } else {
      ReadableTail(segs, 1);
      JoinLast(segs[1..]);
    }
  }

  lemma {:induction false} JoinNoTemplate(segs: seq<string>)
    requires forall i | 0 <= i < |segs| :: !HasTemplate(segs[i])
    ensures !HasTemplate(Join(segs))
    decreases |segs|
  {
    if |segs| > 1 {
      JoinNoTemplate(segs[1..]);
      NoTemplateAcross(segs[0], Join(segs[1..]));
    }
  }

  /** A template marker does not straddle a slash. */
  lemma NoTemplateAcross(a: string, b: string)
    requires !HasTemplate(a) && !HasTemplate(b)
    ensures !HasTemplate(a + ['/'] + b)
  {
    var s := a + ['/'] + b;
    forall i: nat | i + 1 < |s| ensures !(s[i] == '$' && s[i + 1] == '{') {
      if i + 1 < |a| {
        assert s[i] == a[i] && s[i + 1] == a[i + 1];
      } else if i > |a| {
        var j := i - |a| - 1;
        assert s[i] == b[j] && s[i + 1] == b[j + 1];
      } else {
        assert s[|a|] == '/';
      }
    }
  }

  lemma TrimOne(x: string)
    ensures TrimRight(x + ['/'], '/') == TrimRight(x, '/')
  {
    assert (x + ['/'])[..|x|] == x;
  }

  lemma {:induction false} TrimAll(x: string, n: nat)
    ensures TrimRight(x + Slashes(n), '/') == TrimRight(x, '/')
    decreases n
  {
    if n == 0 {
      assert x + Slashes(0) == x;
    } else {
      var y := x + Slashes(n - 1);
      TrimOne(y);
      assert x + Slashes(n) == y + ['/'];
      TrimAll(x, n - 1);
    }
  }

  /** The splitting parser's trim takes every trailing slash, the cutting one's the last. */
  lemma TrimPath(segs: seq<string>, n: nat)
    requires Readable(segs)
    ensures TrimRight(PathOf(segs, n), '/') == ['/'] + Join(segs)
    ensures TrimSuffix(TrimPrefix(PathOf(segs, n), "/"), '/') == Join(segs) + Slashes(if n == 0 then 0 else n - 1)
  {
    var j := Join(segs);
    JoinLast(segs);
    TrimAll(['/'] + j, n);
    assert (['/'] + j)[|j|] == j[|j| - 1];
    assert PathOf(segs, n) == ['/'] + (j + Slashes(n));
    assert TrimPrefix(PathOf(segs, n), "/") == j + Slashes(n);
    if n == 0 {
      assert j + Slashes(0) == j;
    } else {
      assert j + Slashes(n) == (j + Slashes(n - 1)) + ['/'];
      assert (j + Slashes(n))[..|j + Slashes(n - 1)|] == j + Slashes(n - 1);
    }
  }

  lemma {:induction false} SlashesOnly(n: nat, c: char)
    requires c != '/'
    ensures c !in Slashes(n)
    decreases n
  {
    if n > 0 { SlashesOnly(n - 1, c); }
  }

  lemma NoQuery(path: string)
    requires '#' !in path && '?' !in path
    ensures SplitURI(path) == (path, "", false)
  {
    IndexNone(path, '#');
    IndexNone(path, '?');
  }

  lemma PathHasNoQuery(segs: seq<string>, n: nat)
    requires Readable(segs)
    ensures SplitURI(PathOf(segs, n)) == (PathOf(segs, n), "", false)
  {
    JoinFree(segs, '#');
    JoinFree(segs, '?');
    SlashesOnly(n, '#');
    SlashesOnly(n, '?');
    NoQuery(PathOf(segs, n));
  }

  /** A string starts with "<root>/" exactly when its first segment is the root. */
  lemma PrefixCut(x: string, root: string)
    requires '/' !in root
    ensures root + ['/'] <= x <==> Cut(x, '/').2 && Cut(x, '/').0 == root
    ensures root + ['/'] <= x ==> x[|root| + 1..] == Cut(x, '/').1
  {
    if root + ['/'] <= x {
      assert x == root + ['/'] + x[|root| + 1..];
      CutAt(root, '/', x[|root| + 1..]);
    }
  }

  predicate SlashFree(segs: seq<string>) {
    forall i | 0 <= i < |segs| :: '/' !in segs[i]
  }

  /** The prefix "/<root>/" of a path is the first of its segments. */
  lemma RootPrefix(segs: seq<string>, root: string)
    requires segs != [] && SlashFree(segs) && '/' !in root
    ensures HasPrefix(['/'] + Join(segs), ['/'] + root + ['/']) <==> |segs| >= 2 && segs[0] == root
    ensures |segs| >= 2 && segs[0] == root ==> TrimPrefix(['/'] + Join(segs), ['/'] + root + ['/']) == Join(segs[1..])
  {
    var x := Join(segs);
    PrefixCut(x, root);
    PrefixUnderSlash(x, root + ['/']);
    assert ['/'] + (root + ['/']) == ['/'] + root + ['/'];
    if |segs| == 1 {
      IndexNone(segs[0], '/');
    } else {
      CutAt(segs[0], '/', Join(segs[1..]));
    }
  }

  lemma PrefixUnderSlash(x: string, p: string)
    ensures ['/'] + p <= ['/'] + x <==> p <= x
    ensures p <= x ==> (['/'] + x)[|['/'] + p|..] == x[|p|..]
  {
    var px, pp := ['/'] + x, ['/'] + p;
    assert px[1..] == x && pp[1..] == p;
    if p <= x {
      assert x == p + x[|p|..];
      assert px == pp + x[|p|..];
    }
    if pp <= px {
      assert px == pp + px[|pp|..];
      assert x == p + px[|pp|..];
    }
  }

  /** The splitting parser reads a path by its segments, whatever slashes trail it. */
  lemma ParsePathMeaning(segs: seq<string>, n: nat)
    requires Readable(segs)
    ensures ParsePath(PathOf(segs, n)) == Meaning(segs)
  {
    PathHasNoQuery(segs, n);
    TrimPath(segs, n);
    NoTemplatePath(segs);
    assert SlashFree(segs) by { forall i | 0 <= i < |segs| ensures '/' !in segs[i] { assert Plain(segs[i]); } }
    SplitMeaning(segs);
  }

  lemma NoTemplatePath(segs: seq<string>)
    requires Readable(segs)
    ensures !HasTemplate(['/'] + Join(segs))
  {
    JoinNoTemplate(segs);
    assert "" + ['/'] + Join(segs) == ['/'] + Join(segs);
    NoTemplateAcross("", Join(segs));
  }

  lemma SplitMeaning(segs: seq<string>)
    requires segs != [] && SlashFree(segs)
    ensures SplitPath(['/'] + Join(segs)) == Meaning(segs)
  {
    assert ['/'] + "api" + ['/'] == "/api/" && ['/'] + "apis" + ['/'] == "/apis/";
    RootPrefix(segs, "api");
    RootPrefix(segs, "apis");
    if |segs| >= 2 {
      SplitJoin(segs[1..]);
      assert |segs| >= 3 ==> segs[1..][1..] == segs[2..];
      assert |segs| >= 4 ==> segs[1..][2..] == segs[3..];
    }
  }

  /** Segments each followed by a slash. */
  function Closed(segs: seq<string>): string {
    if segs == [] then "" else segs[0] + ['/'] + Closed(segs[1..])
  }

  lemma {:induction false} JoinClosed(segs: seq<string>)
    requires segs != []
    ensures Join(segs) + ['/'] == Closed(segs)
    decreases |segs|
  {
    if |segs| == 1 {
      assert segs[1..] == [];
    } else {
      JoinClosed(segs[1..]);
      assert Join(segs) + ['/'] == segs[0] + ['/'] + (Join(segs[1..]) + ['/']);
    }
  }

  lemma {:induction false} ClosedJoin(a: seq<string>, b: seq<string>)
    ensures Closed(a + b) == Closed(a) + Closed(b)
    decreases |a|
  {
    if a == [] {
      assert a + b == b;
    } else {
      assert (a + b)[1..] == a[1..] + b;
      ClosedJoin(a[1..], b);
    }
  }

  function Empties(n: nat): seq<string> { seq(n, _ => "") }

  lemma {:induction false} ClosedEmpties(n: nat)
    ensures Closed(Empties(n)) == Slashes(n)
    decreases n
  {
    if n > 0 {
      ClosedEmpties(n - 1);
      assert Empties(n) == Empties(n - 1) + [""] && [""][1..] == [];
      ClosedJoin(Empties(n - 1), [""]);
      assert Closed([""]) == "" + ['/'] + Closed([]);
    }
  }

  /** Trailing slashes are empty segments, but for the one that closes the last. */
  lemma SlashesAreEmpties(segs: seq<string>, m: nat)
    requires segs != [] && m > 0
    ensures Join(segs) + Slashes(m) == Closed(segs + Empties(m - 1))
  {
    SlashesFront(m);
    JoinClosed(segs);
    ClosedEmpties(m - 1);
    ClosedJoin(segs, Empties(m - 1));
    assert Join(segs) + (['/'] + Slashes(m - 1)) == (Join(segs) + ['/']) + Slashes(m - 1);
  }

  lemma {:induction false} SlashesFront(m: nat)
    requires m > 0
    ensures Slashes(m) == ['/'] + Slashes(m - 1)
    decreases m
  {
    if m > 1 { SlashesFront(m - 1); }
  }

  /** What the cutting parser works on: segments joined, the last not empty; or each closed by
      a slash. */
  predicate Cuttable(segs: seq<string>, closed: bool) {
    segs != [] && SlashFree(segs) && (!closed ==> segs[|segs| - 1] != "")
  }

  /** The rest of a path after some of its segments. */
  function Rest(segs: seq<string>, closed: bool, n: nat): string
    requires n <= |segs|
  {
    if closed then Closed(segs[n..]) else Join(segs[n..])
  }

  lemma {:induction false} JoinNonEmpty(segs: seq<string>)
    requires segs != [] && segs[|segs| - 1] != ""
    ensures Join(segs) != ""
    decreases |segs|
  {
    if |segs| > 1 { JoinNonEmpty(segs[1..]); }
  }

  lemma CutJoined(segs: seq<string>, n: nat)
    requires SlashFree(segs) && n < |segs| && segs[|segs| - 1] != ""
    ensures CutSegment(Join(segs[n..])) == Some((segs[n], Join(segs[n + 1..])))
    ensures Join(segs[n..]) != ""
  {
    var tail := segs[n..];
    JoinNonEmpty(tail);
    assert tail[0] == segs[n] && tail[1..] == segs[n + 1..];
    if |tail| == 1 {
      IndexNone(tail[0], '/');
    } else {
      CutAt(tail[0], '/', Join(tail[1..]));
    }
  }

  lemma CutClosed(segs: seq<string>, n: nat)
    requires SlashFree(segs) && n < |segs|
    ensures CutSegment(Closed(segs[n..])) == Some((segs[n], Closed(segs[n + 1..])))
    ensures Closed(segs[n..]) != ""
  {
    var tail := segs[n..];
    assert tail[0] == segs[n] && tail[1..] == segs[n + 1..];
    CutAt(tail[0], '/', Closed(tail[1..]));
  }

  /** Cutting a segment off takes the next one. */
  lemma CutNext(segs: seq<string>, closed: bool, n: nat)
    requires Cuttable(segs, closed) && n <= |segs|
    ensures CutSegment(Rest(segs, closed, n)) == if n == |segs| then None else Some((segs[n], Rest(segs, closed, n + 1)))
    ensures Rest(segs, closed, n) == "" <==> n == |segs|
  {
    if n < |segs| {
      if closed { CutClosed(segs, n); } else { CutJoined(segs, n); }
    }
  }

  /** The resource comes first, or follows a namespace. */
  lemma CutOne(group: string, version: string, p: string, r: string, rest: string)
    requires CutSegment(p) == Some((r, rest)) && (r == "namespaces" ==> rest == "")
    ensures CutResource(group, version, p) == if r == "" then None else Some(Resource(GVR(group, version, r), rest == ""))
  {
  }

  lemma CutScoped(group: string, version: string, p: string, rest: string, ns: string, rest1: string)
    requires CutSegment(p) == Some(("namespaces", rest)) && CutSegment(rest) == Some((ns, rest1))
    ensures CutResource(group, version, p) ==
              match CutSegment(rest1)
              case None => Some(Resource(GVR(group, version, "namespaces"), false))
              case Some((r, tail)) => if r == "" then None else Some(Resource(GVR(group, version, r), tail == ""))
  {
  }

  lemma CutResourceMeaning(group: string, version: string, segs: seq<string>, closed: bool, n: nat)
    requires Cuttable(segs, closed) && n < |segs|
    ensures CutResource(group, version, Rest(segs, closed, n)) ==
              var t := FromParts(group, version, segs[n..]);
              if t.gvr.resource == "" then None else Some(Resource(t.gvr, AfterResource(segs[n..]) == []))
  {
    var parts, p, p1 := segs[n..], Rest(segs, closed, n), Rest(segs, closed, n + 1);
    CutNext(segs, closed, n);
    CutNext(segs, closed, n + 1);
    if segs[n] == "namespaces" && n + 1 < |segs| {
      CutNext(segs, closed, n + 2);
      CutScoped(group, version, p, p1, segs[n + 1], Rest(segs, closed, n + 2));
      if n + 2 < |segs| { CutNext(segs, closed, n + 3); }
    } else {
      CutOne(group, version, p, segs[n], p1);
    }
  }

  lemma CutPathMeaning(segs: seq<string>, closed: bool)
    requires Cuttable(segs, closed)
    ensures CutPath(if closed then Closed(segs) else Join(segs)) == CutMeaning(segs)
  {
    assert segs[0..] == segs;
    CutNext(segs, closed, 0);
    var p, rest := Rest(segs, closed, 0), Rest(segs, closed, 1);
    if segs[0] == "api" {
      ApiRest(segs, closed);
      CutRoot(p, "api", rest);
    } else if segs[0] == "apis" {
      ApisRest(segs, closed);
      CutRoot(p, "apis", rest);
    }
  }

  /** What follows the root segment. */
  function CutRest(root: string, rest: string): Option<Resource> {
    match CutSegment(rest)
    case None => None
    case Some((first, rest1)) =>
      if root == "api" then CutResource("", first, rest1)
      else match CutSegment(rest1)
           case None => None
           case Some((version, rest2)) => CutResource(first, version, rest2)
  }

  lemma CutRoot(p: string, root: string, rest: string)
    requires CutSegment(p) == Some((root, rest)) && root in {"api", "apis"}
    ensures CutPath(p) == CutRest(root, rest)
  {
  }

  lemma ApiRest(segs: seq<string>, closed: bool)
    requires Cuttable(segs, closed) && segs[0] == "api"
    ensures CutRest("api", Rest(segs, closed, 1)) == CutMeaning(segs)
  {
    CutNext(segs, closed, 1);
    if |segs| >= 2 { ApiMeaning(segs, closed); }
  }

  lemma ApisRest(segs: seq<string>, closed: bool)
    requires Cuttable(segs, closed) && segs[0] == "apis"
    ensures CutRest("apis", Rest(segs, closed, 1)) == CutMeaning(segs)
  {
    CutNext(segs, closed, 1);
    if |segs| >= 2 {
      CutNext(segs, closed, 2);
      if |segs| >= 3 { ApisMeaning(segs, closed); }
    }
  }

  lemma ApiMeaning(segs: seq<string>, closed: bool)
    requires Cuttable(segs, closed) && |segs| >= 2 && segs[0] == "api"
    ensures CutResource("", segs[1], Rest(segs, closed, 2)) == CutMeaning(segs)
  {
    CutNext(segs, closed, 2);
    if |segs| >= 3 { CutResourceMeaning("", segs[1], segs, closed, 2); }
  }

  lemma ApisMeaning(segs: seq<string>, closed: bool)
    requires Cuttable(segs, closed) && |segs| >= 3 && segs[0] == "apis"
    ensures CutResource(segs[1], segs[2], Rest(segs, closed, 3)) == CutMeaning(segs)
  {
    CutNext(segs, closed, 3);
    if |segs| >= 4 { CutResourceMeaning(segs[1], segs[2], segs, closed, 3); }
  }

  /** The segments the cutting parser sees: from the third on, a trailing slash is an empty one. */
  function Visible(segs: seq<string>, n: nat): seq<string> {
    if n <= 2 then segs else segs + Empties(n - 2)
  }

  lemma VisibleCuttable(segs: seq<string>, n: nat)
    requires Readable(segs)
    ensures Cuttable(Visible(segs, n), true) && (n <= 1 ==> Cuttable(Visible(segs, n), false))
  {
    forall i | 0 <= i < |segs| ensures '/' !in segs[i] { assert Plain(segs[i]); }
  }

  /** The string the cutting parser is left with, by the segments it sees. */
  function Left(segs: seq<string>, n: nat): string {
    if n <= 1 then Join(segs) else Closed(Visible(segs, n))
  }

  lemma TrimLeaves(segs: seq<string>, n: nat)
    requires Readable(segs)
    ensures TrimSuffix(TrimPrefix(PathOf(segs, n), "/"), '/') == Left(segs, n)
  {
    TrimPath(segs, n);
    LeftAfterTrim(segs, n);
  }

  lemma LeftAfterTrim(segs: seq<string>, n: nat)
    requires segs != []
    ensures Left(segs, n) == Join(segs) + Slashes(if n == 0 then 0 else n - 1)
  {
    if n <= 1 {
      assert Join(segs) + Slashes(0) == Join(segs);
    } else {
      SlashesAreEmpties(segs, n - 1);
      assert Visible(segs, n) == segs + Empties(n - 2);
    }
  }

  lemma CutLeft(segs: seq<string>, n: nat)
    requires Readable(segs)
    ensures CutPath(Left(segs, n)) == CutMeaning(Visible(segs, n))
  {
    VisibleCuttable(segs, n);
    CutPathMeaning(Visible(segs, n), n > 1);
  }

  /** The cutting parser reads a path by the segments it sees. */
  lemma ParseResourceMeaning(segs: seq<string>, n: nat)
    requires Readable(segs)
    ensures ParseResourcePath(PathOf(segs, n)) == CutMeaning(Visible(segs, n))
  {
    TrimLeaves(segs, n);
    CutLeft(segs, n);
  }

  // ---- every string --------------------------------------------------------------------

  /** The path and the query of any string: it is the path, the query behind a '?' if there is
      one, and a fragment behind a '#' if there is one, with no separator before its time. */
  lemma SplitURIMeaning(p: string) returns (fragment: string)
    ensures var (path, query, has) := SplitURI(p);
            && p == path + (if has then ['?'] + query else "") + fragment
            && '?' !in path && '#' !in path && '#' !in query && (!has ==> query == "")
            && (fragment == "" || fragment[0] == '#')
  {
    var (head, tail, cut) := Cut(p, '#');
    var (path, query, has) := Cut(head, '?');
    fragment := if cut then ['#'] + tail else "";
    assert p == head + fragment;
    assert head == path + if has then ['?'] + query else "";
    assert '#' !in head;
    forall c | c in path || c in query ensures c in head {}
  }

  /** What a trim leaves: the string without its trailing slashes. */
  lemma {:induction false} TrimMeaning(s: string) returns (n: nat)
    ensures s == TrimRight(s, '/') + Slashes(n)
    ensures TrimRight(s, '/') == "" || TrimRight(s, '/')[|TrimRight(s, '/')| - 1] != '/'
    decreases |s|
  {
    n := 0;
    if s != [] && s[|s| - 1] == '/' {
      n := TrimMeaning(s[..|s| - 1]);
      n := n + 1;
      assert s == s[..|s| - 1] + ['/'];
    }
  }

  lemma TemplateTrimmed(s: string)
    ensures HasTemplate(TrimRight(s, '/')) <==> HasTemplate(s)
  {
    var n := TrimMeaning(s);
    var t := TrimRight(s, '/');
    SlashesOnly(n, '{');
    if i: nat :| i + 1 < |s| && s[i] == '$' && s[i + 1] == '{' {
      forall j | |t| <= j < |s| ensures s[j] != '{' { assert s[j] == Slashes(n)[j - |t|]; }
      assert t[i] == '$' && t[i + 1] == '{';
    }
    if i: nat :| i + 1 < |t| && t[i] == '$' && t[i + 1] == '{' { assert s[i] == '$' && s[i + 1] == '{'; }
  }

  /** Joining undoes splitting. */
  lemma {:induction false} JoinSplit(s: string)
    ensures SlashFree(Split(s, '/')) && Join(Split(s, '/')) == s
    decreases |s|
  {
    var i := IndexOf(s, '/');
    if i < |s| {
      JoinSplit(s[i + 1..]);
      JoinFront(s[..i], Split(s[i + 1..], '/'));
      assert s == s[..i] + ['/'] + s[i + 1..];
    }
  }

  lemma JoinFront(seg: string, rest: seq<string>)
    requires rest != [] && SlashFree(rest) && '/' !in seg
    ensures SlashFree([seg] + rest) && Join([seg] + rest) == seg + ['/'] + Join(rest)
  {
    assert ([seg] + rest)[1..] == rest;
  }

  /** A path read by position: root, group and version, then the resource and the name, with a
      namespace taking two segments when a resource follows it. What follows a name is ignored. */
  function ByPosition(s: seq<string>): Option<Target> {
    if |s| >= 5 && s[0] == "api" && s[2] == "namespaces" then
      Some(Target(GVR("", s[1], s[4]), s[3], if |s| >= 6 then s[5] else ""))
    else if |s| >= 3 && s[0] == "api" then
      Some(Target(GVR("", s[1], s[2]), "", if |s| >= 4 then s[3] else ""))
    else if |s| >= 6 && s[0] == "apis" && s[3] == "namespaces" then
      Some(Target(GVR(s[1], s[2], s[5]), s[4], if |s| >= 7 then s[6] else ""))
    else if |s| >= 4 && s[0] == "apis" then
      Some(Target(GVR(s[1], s[2], s[3]), "", if |s| >= 5 then s[4] else ""))
    else None
  }

  lemma MeaningByPosition(s: seq<string>)
    ensures Meaning(s) == ByPosition(s)
  {
  }

  /** The splitting parser on every string: query, fragment and trailing slashes apart, it must
      begin with a slash and hold no template, and then its segments are read by position. */
  lemma ParsePathTotal(uri: string)
    ensures
      var path := SplitURI(uri).0;
      var t := TrimRight(path, '/');
      var template := exists i: nat | i + 1 < |path| :: path[i] == '$' && path[i + 1] == '{';
      ParsePath(uri) == if template || t == "" || t[0] != '/' then None else ByPosition(Split(t[1..], '/'))
  {
    var path := SplitURI(uri).0;
    TemplateTrimmed(path);
    SplitEvery(TrimRight(path, '/'));
  }

  lemma SplitEvery(t: string)
    ensures SplitPath(t) == if t == "" || t[0] != '/' then None else ByPosition(Split(t[1..], '/'))
  {
    if t != "" && t[0] == '/' {
      var s := Split(t[1..], '/');
      JoinSplit(t[1..]);
      assert t == ['/'] + Join(s);
      SplitMeaning(s);
      MeaningByPosition(s);
    }
  }

  /** The segments the cutting parser finds in a string: a closing slash ends the last one. */
  function SegmentsOf(p: string): seq<string> {
    var s := Split(p, '/');
    if s[|s| - 1] == "" then s[..|s| - 1] else s
  }

  lemma CutEvery(p: string)
    ensures CutPath(p) == CutMeaning(SegmentsOf(p))
  {
    var s := Split(p, '/');
    JoinSplit(p);
    if s[|s| - 1] != "" {
      CutPathMeaning(s, false);
    } else if |s| > 1 {
      var init := s[..|s| - 1];
      JoinLastEmpty(init);
      assert init + [""] == s;
      CutPathMeaning(init, true);
    }
  }

  lemma {:induction false} JoinLastEmpty(init: seq<string>)
    requires init != []
    ensures Join(init + [""]) == Closed(init)
    decreases |init|
  {
    if |init| > 1 {
      JoinLastEmpty(init[1..]);
      assert (init + [""])[1..] == init[1..] + [""];
    } else {
      assert (init + [""])[1..] == [""] && init[1..] == [];
    }
  }

  function NonEmpty(gvr: GVR, collection: bool): Option<Resource> {
    if gvr.resource == "" then None else Some(Resource(gvr, collection))
  }

  /** The same positions as the cutting parser reads them: it refuses an empty resource, and says
      only whether anything follows it. */
  function ResourceByPosition(s: seq<string>): Option<Resource> {
    if |s| >= 5 && s[0] == "api" && s[2] == "namespaces" then NonEmpty(GVR("", s[1], s[4]), |s| == 5)
    else if |s| >= 3 && s[0] == "api" then NonEmpty(GVR("", s[1], s[2]), |s| == 3)
    else if |s| >= 6 && s[0] == "apis" && s[3] == "namespaces" then NonEmpty(GVR(s[1], s[2], s[5]), |s| == 6)
    else if |s| >= 4 && s[0] == "apis" then NonEmpty(GVR(s[1], s[2], s[3]), |s| == 4)
    else None
  }

  lemma CutByPosition(s: seq<string>)
    ensures CutMeaning(s) == ResourceByPosition(s)
  {
    if s != [] && s[0] == "api" && |s| >= 3 {
      PartsByPosition("", s[1], s[2..]);
    } else if s != [] && s[0] == "apis" && |s| >= 4 {
      PartsByPosition(s[1], s[2], s[3..]);
    }
  }

  lemma PartsByPosition(group: string, version: string, parts: seq<string>)
    requires |parts| >= 1
    ensures FromParts(group, version, parts).gvr ==
              GVR(group, version, if |parts| >= 3 && parts[0] == "namespaces" then parts[2] else parts[0])
    ensures AfterResource(parts) == [] <==> |parts| == if |parts| >= 3 && parts[0] == "namespaces" then 3 else 1
  {
  }

  /** The cutting parser on every string: a leading and a closing slash apart, its segments are
      read by position. */
  lemma ParseResourceTotal(path: string)
    ensures
      var p := if path != "" && path[0] == '/' then path[1..] else path;
      var q := if p != "" && p[|p| - 1] == '/' then p[..|p| - 1] else p;
      ParseResourcePath(path) == ResourceByPosition(SegmentsOf(q))
  {
    var q := TrimSuffix(TrimPrefix(path, "/"), '/');
    OneSlash(path);
    CutEvery(q);
    CutByPosition(SegmentsOf(q));
  }

  lemma OneSlash(path: string)
    ensures TrimPrefix(path, "/") == if path != "" && path[0] == '/' then path[1..] else path
  {
    if path != "" && path[0] == '/' { assert path[..1] == "/"; }
  }

  // ---- agreement -----------------------------------------------------------------------

  /** The parsers accept together, give the same resource, and agree that the path is a
      collection exactly when it names nothing. */
  predicate Agree(t: Option<Target>, r: Option<Resource>) {
    && (t.Some? <==> r.Some?)
    && (t.Some? ==> t.value.gvr == r.value.gvr && (t.value.name == "" <==> r.value.collection))
  }

  predicate AgreeOn(path: string) { Agree(ParsePath(path), ParseResourcePath(path)) }

  function ResourceOf(parts: seq<string>): string
    requires |parts| >= 1
  {
    if Scoped(parts) then parts[2] else parts[0]
  }

  /** The resource segment is there, and the segment after it, if any, is not empty. */
  predicate Unambiguous(segs: seq<string>) {
    match PartsOf(segs)
    case None => true
    case Some((_, _, parts)) =>
      ResourceOf(parts) != "" && (AfterResource(parts) != [] ==> AfterResource(parts)[0] != "")
  }

  /** A namespace addressed by itself. */
  predicate NamespaceOnly(parts: seq<string>) { |parts| == 2 && parts[0] == "namespaces" }

  /** Three slashes or more are harmless after a name, but not after a namespace's. */
  predicate Slashproof(segs: seq<string>) {
    match PartsOf(segs)
    case None => true
    case Some((_, _, parts)) => AfterResource(parts) != [] && !NamespaceOnly(parts)
  }

  /** Exactly when the two parsers agree on a path of plain segments with n trailing slashes. */
  lemma ParsersAgreeExactly(segs: seq<string>, n: nat)
    requires Readable(segs)
    ensures AgreeOn(PathOf(segs, n)) <==> Unambiguous(segs) && (n <= 2 || Slashproof(segs))
  {
    ParsePathMeaning(segs, n);
    ParseResourceMeaning(segs, n);
    var more := if n <= 2 then 0 else n - 2;
    assert Visible(segs, n) == segs + Empties(more);
    MeaningsAgree(segs, more);
  }

  /** The resource segment is there, and the slashes give neither the namespaces nor a
      namespace an empty resource. */
  predicate SameVerdict(segs: seq<string>, n: nat) {
    match PartsOf(segs)
    case None => true
    case Some((_, _, parts)) =>
      ResourceOf(parts) != "" && (parts[0] == "namespaces" && |parts| <= 2 ==> |parts| + n <= 4)
  }

  /** Exactly when the two parsers both accept or both refuse such a path. */
  lemma AcceptTogether(segs: seq<string>, n: nat)
    requires Readable(segs)
    ensures (ParsePath(PathOf(segs, n)).Some? <==> ParseResourcePath(PathOf(segs, n)).Some?) <==> SameVerdict(segs, n)
  {
    ParsePathMeaning(segs, n);
    ParseResourceMeaning(segs, n);
    assert Visible(segs, n) == segs + Empties(if n <= 2 then 0 else n - 2);
    MeaningsAccept(segs, n);
  }

  lemma MeaningsAccept(segs: seq<string>, n: nat)
    requires Readable(segs)
    ensures (Meaning(segs).Some? <==> CutMeaning(segs + Empties(if n <= 2 then 0 else n - 2)).Some?) <==> SameVerdict(segs, n)
  {
    var more := if n <= 2 then 0 else n - 2;
    PartsMore(segs, more);
    match PartsOf(segs)
    case None =>
    case Some((group, version, parts)) =>
      FromPartsMeaning(group, version, parts + Empties(more));
      PartsAgree(parts, more);
  }

  /** Empty segments at the end go to the parts; a path too short for parts gets no resource. */
  lemma PartsMore(segs: seq<string>, more: nat)
    requires segs != []
    ensures match PartsOf(segs)
            case None => CutMeaning(segs + Empties(more)) == None
            case Some((group, version, parts)) => PartsOf(segs + Empties(more)) == Some((group, version, parts + Empties(more)))
  {
    var all := segs + Empties(more);
    assert all[0] == segs[0];
    match PartsOf(segs)
    case None =>
      if PartsOf(all).Some? {
        var (_, _, parts) := PartsOf(all).value;
        var from := if segs[0] == "api" then 2 else 3;
        assert parts == all[from..] && parts[0] == all[from] == "";
      }
    case Some((_, _, parts)) =>
      var from := if segs[0] == "api" then 2 else 3;
      assert all[from..] == segs[from..] + Empties(more);
  }

  lemma MeaningsAgree(segs: seq<string>, more: nat)
    requires Readable(segs)
    ensures Agree(Meaning(segs), CutMeaning(segs + Empties(more))) <==> Unambiguous(segs) && (more == 0 || Slashproof(segs))
  {
    PartsMore(segs, more);
    match PartsOf(segs)
    case None =>
    case Some((group, version, parts)) =>
      FromPartsMeaning(group, version, parts);
      FromPartsMeaning(group, version, parts + Empties(more));
      PartsAgree(parts, more);
  }

  lemma FromPartsMeaning(group: string, version: string, parts: seq<string>)
    requires |parts| >= 1
    ensures FromParts(group, version, parts).gvr == GVR(group, version, ResourceOf(parts))
    ensures FromParts(group, version, parts).name == if AfterResource(parts) == [] then "" else AfterResource(parts)[0]
  {
  }

  /** What empty segments at the end change. */
  lemma PartsAgree(parts: seq<string>, more: nat)
    requires |parts| >= 1
    ensures more == 0 ==> parts + Empties(more) == parts
    ensures more > 0 && (Scoped(parts) || parts[0] != "namespaces") ==>
              ResourceOf(parts + Empties(more)) == ResourceOf(parts) && AfterResource(parts + Empties(more)) != []
    ensures more > 0 && !Scoped(parts) && parts[0] == "namespaces" ==>
              if |parts| + more >= 3 then ResourceOf(parts + Empties(more)) == ""
              else ResourceOf(parts + Empties(more)) == parts[0] && AfterResource(parts + Empties(more)) != []
  {
  }

  lemma NonEmptyUnambiguous(segs: seq<string>)
    requires forall i | 0 <= i < |segs| :: segs[i] != ""
    ensures Unambiguous(segs)
  {
    match PartsOf(segs)
    case None =>
    case Some((_, _, parts)) =>
      var from := if segs[0] == "api" then 2 else 3;
      assert parts == segs[from..];
      assert forall i | 0 <= i < |parts| :: parts[i] == segs[from + i];
      AfterIsPart(parts);
  }

  lemma AfterIsPart(parts: seq<string>)
    requires |parts| >= 1 && forall i | 0 <= i < |parts| :: parts[i] != ""
    ensures ResourceOf(parts) != "" && (AfterResource(parts) != [] ==> AfterResource(parts)[0] != "")
  {
  }

  /** In particular they agree on every path of non-empty segments with up to two trailing
      slashes. */
  lemma ParsersAgree(segs: seq<string>, n: nat)
    requires Readable(segs) && n <= 2 && forall i | 0 <= i < |segs| :: segs[i] != ""
    ensures AgreeOn(PathOf(segs, n))
  {
    NonEmptyUnambiguous(segs);
    ParsersAgreeExactly(segs, n);
  }

  /** From three slashes on a collection reads as a collection and as a named object. */
  lemma TrailingSlashes(v: string, r: string, n: nat)
    requires Readable(["api", v, r]) && r != "namespaces" && n >= 3
    ensures ParsePath(PathOf(["api", v, r], n)) == Some(Target(GVR("", v, r), "", ""))
    ensures ParseResourcePath(PathOf(["api", v, r], n)) == Some(Resource(GVR("", v, r), false))
  {
    var segs := ["api", v, r];
    assert segs[2..] == [r];
    SplitSlashed(segs, "", v, [r], n);
    CutSlashed(segs, "", v, [r], n);
    PartsAgree([r], n - 2);
  }

  /** And a namespace reads as itself and as no resource at all. */
  lemma NamespaceSlashes(v: string, x: string, n: nat)
    requires Readable(["api", v, "namespaces", x]) && n >= 3
    ensures ParsePath(PathOf(["api", v, "namespaces", x], n)) == Some(Target(GVR("", v, "namespaces"), "", x))
    ensures ParseResourcePath(PathOf(["api", v, "namespaces", x], n)) == None
  {
    var segs, parts := ["api", v, "namespaces", x], ["namespaces", x];
    assert segs[2..] == parts;
    SplitSlashed(segs, "", v, parts, n);
    CutSlashed(segs, "", v, parts, n);
    PartsAgree(parts, n - 2);
  }

  lemma SplitSlashed(segs: seq<string>, group: string, version: string, parts: seq<string>, n: nat)
    requires Readable(segs) && PartsOf(segs) == Some((group, version, parts)) && parts != []
    ensures ParsePath(PathOf(segs, n)) == Some(FromParts(group, version, parts))
  {
    ParsePathMeaning(segs, n);
  }

  lemma CutSlashed(segs: seq<string>, group: string, version: string, parts: seq<string>, n: nat)
    requires Readable(segs) && n >= 3 && PartsOf(segs) == Some((group, version, parts)) && parts != []
    ensures ParseResourcePath(PathOf(segs, n)) == CutParts(group, version, parts + Empties(n - 2))
  {
    ParseResourceMeaning(segs, n);
    CutVisible(segs, group, version, parts, n);
  }

  function CutParts(group: string, version: string, parts: seq<string>): Option<Resource>
    requires parts != []
  {
    if ResourceOf(parts) == "" then None
    else Some(Resource(GVR(group, version, ResourceOf(parts)), AfterResource(parts) == []))
  }

  lemma CutVisible(segs: seq<string>, group: string, version: string, parts: seq<string>, n: nat)
    requires segs != [] && n >= 3 && PartsOf(segs) == Some((group, version, parts)) && parts != []
    ensures CutMeaning(Visible(segs, n)) == CutParts(group, version, parts + Empties(n - 2))
  {
    PartsMore(segs, n - 2);
    FromPartsMeaning(group, version, parts + Empties(n - 2));
  }

  // ---- printing ------------------------------------------------------------------------

  /** The documented shape of a target: core or group, cluster or namespace, list or name. */
  function Segments(t: Target): seq<string> {
    (if t.gvr.group == "" then ["api"] else ["apis", t.gvr.group]) + [t.gvr.version] + Scope(t)
  }

  function Scope(t: Target): seq<string> {
    (if t.namespace == "" then [] else ["namespaces", t.namespace]) + [t.gvr.resource] + (if t.name == "" then [] else [t.name])
  }

  predicate Printable(t: Target) {
    && Plain(t.gvr.group) && Plain(t.gvr.version) && Plain(t.gvr.resource) && Plain(t.namespace) && Plain(t.name)
    && t.gvr.resource != ""
  }

  lemma ScopeMeaning(t: Target)
    ensures FromParts(t.gvr.group, t.gvr.version, Scope(t)) == t
    ensures AfterResource(Scope(t)) == if t.name == "" then [] else [t.name]
  {
  }

  lemma ScopePlain(t: Target)
    requires Printable(t)
    ensures Readable(Scope(t))
  {
    assert Plain("namespaces");
  }

  lemma ReadableAfter(head: seq<string>, tail: seq<string>)
    requires Readable(tail) && forall i | 0 <= i < |head| :: Plain(head[i])
    ensures Readable(head + tail) && (head + tail)[|head|..] == tail
  {
  }

  lemma SegmentsMeaning(t: Target)
    requires Printable(t)
    ensures Readable(Segments(t))
    ensures PartsOf(Segments(t)) == Some((t.gvr.group, t.gvr.version, Scope(t)))
  {
    ScopePlain(t);
    assert Plain("api") && Plain("apis");
    var head := if t.gvr.group == "" then ["api", t.gvr.version] else ["apis", t.gvr.group, t.gvr.version];
    assert Segments(t) == head + Scope(t);
    ReadableAfter(head, Scope(t));
  }

  /** Parsing inverts printing in each of the eight documented shapes. */
  lemma ParseInvertsPrint(t: Target, n: nat)
    requires Printable(t)
    ensures ParsePath(PathOf(Segments(t), n)) == Some(t)
    ensures n <= 2 ==> ParseResourcePath(PathOf(Segments(t), n)) == Some(Resource(t.gvr, t.name == ""))
  {
    SegmentsMeaning(t);
    ScopeMeaning(t);
    ParsePathMeaning(Segments(t), n);
    ParseResourceMeaning(Segments(t), n);
  }

  /** The query is what follows the first '?' before any '#'; neither reaches the path. */
  lemma QueryIgnored(path: string, query: string, fragment: string)
    requires '#' !in path && '?' !in path && '#' !in query
    ensures SplitURI(path + ['?'] + query + ['#'] + fragment) == (path, query, true)
    ensures ParsePath(path + ['?'] + query + ['#'] + fragment) == ParsePath(path)
    ensures ParsePath(path + ['#'] + fragment) == ParsePath(path)
  {
    var head := path + ['?'] + query;
    assert '#' !in head;
    CutAt(head, '#', fragment);
    CutAt(path, '?', query);
    CutAt(path, '#', fragment);
    NoQuery(path);
  }
}
