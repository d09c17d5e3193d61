/**
  The directory tree that RedisStorage presents over its flat set of keys: what List calls a child, and when
  walking the children of a directory reaches every key under it.
 */
module CertTree {

  type Key = string

  /** List drops one trailing slash from its argument. */
  function TrimSlash(d: Key): Key {
    if d != "" && d[|d| - 1] == '/' then d[..|d| - 1] else d
  }

  function ChildPrefix(d: Key): Key {
    if d == "" then "" else d + "/"
  }

  /** The position of the first slash, or the length when there is none. */
  function SlashAt(s: string): (i: nat)
    ensures i <= |s| && '/' !in s[..i]
    ensures i < |s| ==> s[i] == '/'
  {
    if s == "" || s[0] == '/' then 0
    else
      var i := SlashAt(s[1..]) + 1;
      assert s[..i] == [s[0]] + s[1..][..i - 1];
      i
  }

  predicate Under(d: Key, m: Key) {
    ChildPrefix(d) <= m && |ChildPrefix(d)| < |m|
  }

  function Rest(d: Key, m: Key): string
    requires ChildPrefix(d) <= m
  {
    m[|ChildPrefix(d)|..]
  }

  /** The entry a non-recursive List of `d` reports for `m`: the first path component below `d`. */
  function Child(d: Key, m: Key): Key
    requires Under(d, m)
  {
    ChildPrefix(d) + Rest(d, m)[..SlashAt(Rest(d, m))]
  }

  function Children(keys: set<Key>, d: Key): set<Key> {
    set m | m in keys && Under(d, m) :: Child(d, m)
  }

  function Descendants(keys: set<Key>, d: Key): set<Key> {
    set m | m in keys && Under(d, m)
  }

  /** The key is made of the directory, a component without a slash, and nothing or a slash and more. */
  ghost predicate Splits(d: Key, m: Key, comp: string, tail: string) {
    && '/' !in comp && comp + tail != "" && (tail == "" || tail[0] == '/')
    && m == (if d == "" then comp + tail else d + "/" + comp + tail)
  }

  lemma {:induction false} FirstSlash(comp: string, tail: string)
    requires '/' !in comp && (tail == "" || tail[0] == '/')
    ensures SlashAt(comp + tail) == |comp|
    decreases |comp|
  {
    if comp == "" {
      assert comp + tail == tail;
    } else {
      assert (comp + tail)[1..] == comp[1..] + tail && comp[0] in comp;
      FirstSlash(comp[1..], tail);
    }
  }

  /** What is listed: for each key below the directory, the directory and the key's next component. */
  lemma ChildMeans(d: Key, m: Key, comp: string, tail: string)
    requires Splits(d, m, comp, tail)
    ensures Under(d, m) && Child(d, m) == if d == "" then comp else d + "/" + comp
  {
    FirstSlash(comp, tail);
    assert d != "" ==> m == (d + "/") + (comp + tail);
    assert Rest(d, m) == comp + tail;
    assert (comp + tail)[..|comp|] == comp;
  }

  /** And nothing else is below a directory. */
  lemma UnderSplits(d: Key, m: Key) returns (comp: string, tail: string)
    requires Under(d, m)
    ensures Splits(d, m, comp, tail)
  {
    var r := Rest(d, m);
    comp, tail := r[..SlashAt(r)], r[SlashAt(r)..];
    assert r == comp + tail && m == ChildPrefix(d) + r;
    assert d != "" ==> m == d + "/" + comp + tail;
  }

  /** The listings in terms of the keys' text alone. */
  lemma ListingsMean(keys: set<Key>, d: Key, k: Key)
    ensures k in Descendants(keys, d) <==> k in keys && exists comp, tail :: Splits(d, k, comp, tail)
    ensures k in Children(keys, d) <==>
      exists m, comp, tail :: m in keys && Splits(d, m, comp, tail) && k == if d == "" then comp else d + "/" + comp
  {
    if k in Descendants(keys, d) {
      var comp, tail := UnderSplits(d, k);
    }
    if k in keys && exists comp, tail :: Splits(d, k, comp, tail) {
      var comp, tail :| Splits(d, k, comp, tail);
      ChildMeans(d, k, comp, tail);
    }
    if k in Children(keys, d) {
      var m :| m in keys && Under(d, m) && Child(d, m) == k;
      var comp, tail := UnderSplits(d, m);
      ChildMeans(d, m, comp, tail);
    }
    if exists m, comp, tail :: m in keys && Splits(d, m, comp, tail) && k == if d == "" then comp else d + "/" + comp {
      var m, comp, tail :| m in keys && Splits(d, m, comp, tail) && k == if d == "" then comp else d + "/" + comp;
      ChildMeans(d, m, comp, tail);
    }
  }

  /** One trailing slash, and only one, is taken off a directory's name. */
  lemma TrimMeans(d: Key)
    ensures TrimSlash(d + "/") == d
    ensures d == "" || d[|d| - 1] != '/' ==> TrimSlash(d) == d
  {
  }

  /** `path` goes down from `d`, each entry being listed in the directory named by the one before. */
  ghost predicate Walk(keys: set<Key>, d: Key, path: seq<Key>)
    decreases |path|
  {
    path == [] || (path[0] in Children(keys, d) && Walk(keys, TrimSlash(path[0]), path[1..]))
  }

  ghost predicate WalksTo(keys: set<Key>, d: Key, path: seq<Key>, f: Key) {
    path != [] && path[|path| - 1] == f && Walk(keys, d, path)
  }

  /** Walking non-recursive listings down from `d` meets the stored key `f`. */
  ghost predicate Reached(keys: set<Key>, d: Key, f: Key) {
    f in keys && exists path :: WalksTo(keys, d, path, f)
  }

  ghost predicate NoDoubleSlash(r: string) {
    forall i :: 0 <= i < |r| - 1 ==> !(r[i] == '/' && r[i + 1] == '/')
  }

  /** No empty path component. */
  ghost predicate Clean(r: string) {
    r != "" && r[0] != '/' && r[|r| - 1] != '/' && NoDoubleSlash(r)
  }

  lemma CutAtSlash(p: string, r: string, i: nat)
    requires i < |r| && r[i] == '/'
    ensures p + r == (p + r[..i] + "/") + r[i + 1..]
  {
    assert r == r[..i] + "/" + r[i + 1..];
  }

  /** A listed component ends in no slash. */
  lemma ChildIsTrimmed(d: Key, m: Key)
    requires Under(d, m) && 0 < SlashAt(Rest(d, m))
    ensures var e := Child(d, m); TrimSlash(e) == e && ChildPrefix(e) == e + "/"
  {
    var head := Rest(d, m)[..SlashAt(Rest(d, m))];
    var e := Child(d, m);
    assert e[|e| - 1] == head[|head| - 1];
    assert head[|head| - 1] in head;
  }

  /** Listing never skips a level: below a non-empty component the walk continues with the remaining components. */
  lemma Descend(d: Key, m: Key)
    requires Under(d, m) && 0 < SlashAt(Rest(d, m))
    ensures var e := Child(d, m); var i := SlashAt(Rest(d, m));
      && TrimSlash(e) == e && ChildPrefix(e) == e + "/"
      && (i == |Rest(d, m)| ==> e == m)
      && (i < |Rest(d, m)| ==> ChildPrefix(e) <= m && Rest(e, m) == Rest(d, m)[i + 1..])
  {
    var r, i := Rest(d, m), SlashAt(Rest(d, m));
    ChildIsTrimmed(d, m);
    assert m == ChildPrefix(d) + r;
    if i < |r| {
      CutAtSlash(ChildPrefix(d), r, i);
    } else {
      assert r[..i] == r;
    }
  }

  lemma CleanTail(r: string, i: nat)
    requires Clean(r) && i < |r| && r[i] == '/'
    ensures i + 1 < |r| && Clean(r[i + 1..])
  {
    var t := r[i + 1..];
    forall j | 0 <= j < |t| - 1
      ensures !(t[j] == '/' && t[j + 1] == '/')
    {
      var k := i + 1 + j;
      assert t[j] == r[k] && t[j + 1] == r[k + 1];
    }
    assert r[i + 1] != '/';
  }

  lemma {:induction false} CleanIsReached(keys: set<Key>, d: Key, m: Key) returns (path: seq<Key>)
    requires m in keys && Under(d, m) && Clean(Rest(d, m))
    ensures WalksTo(keys, d, path, m)
    decreases |Rest(d, m)|
  {
    var r, i := Rest(d, m), SlashAt(Rest(d, m));
    var e := Child(d, m);
    assert e in Children(keys, d);
    Descend(d, m);
    if i == |r| {
      path := [m];
    } else {
      CleanTail(r, i);
      var rest := CleanIsReached(keys, e, m);
      path := [e] + rest;
      assert path[1..] == rest;
    }
  }

  /** An entry with an empty component names the listed directory itself, so a walk through it makes no progress. */
  lemma EmptyComponentLoops(d: Key, m: Key)
    requires Under(d, m) && SlashAt(Rest(d, m)) == 0
    ensures Child(d, m) == ChildPrefix(d) && TrimSlash(Child(d, m)) == d
    ensures ChildPrefix(d) + "/" <= m
  {
    var p, r := ChildPrefix(d), Rest(d, m);
    assert r[..0] == "";
    assert m == p + r && m[|p|] == '/';
    assert m[..|p| + 1] == p + "/";
  }

  /** The part of a reached key below `d` when it was walked to. */
  ghost predicate Shape(keys: set<Key>, d: Key, f: Key) {
    && ChildPrefix(d) <= f
    && var r := Rest(d, f);
    && NoDoubleSlash(r)
    && (r != "" ==> r[0] != '/')
    && (r == "" || r[|r| - 1] == '/' ==> exists m :: m in keys && f + "/" <= m)
  }

  lemma ComponentThenRest(comp: string, r: string)
    requires comp != "" && '/' !in comp && NoDoubleSlash(r) && (r != "" ==> r[0] != '/')
    ensures var t := comp + "/" + r; t[0] != '/' && NoDoubleSlash(t)
    ensures var t := comp + "/" + r; t[|t| - 1] == '/' <==> r == "" || r[|r| - 1] == '/'
  {
    var t := comp + "/" + r;
    assert comp[0] in comp && t[0] == comp[0];
    forall i | 0 <= i < |t| - 1
      ensures !(t[i] == '/' && t[i + 1] == '/')
    {
      if i < |comp| {
        assert comp[i] in comp;
      } else if i > |comp| {
        assert t[i] == r[i - |comp| - 1] && t[i + 1] == r[i - |comp| - 1 + 1];
      }
    }
  }

  lemma RestBelow(d: Key, comp: string, f: Key)
    requires comp != "" && ChildPrefix(ChildPrefix(d) + comp) <= f
    ensures ChildPrefix(d) <= f && Rest(d, f) == comp + "/" + Rest(ChildPrefix(d) + comp, f)
  {
    var r := Rest(ChildPrefix(d) + comp, f);
    assert f == ChildPrefix(d) + (comp + "/" + r);
  }

  lemma ShapeBelow(keys: set<Key>, d: Key, comp: string, f: Key)
    requires comp != "" && '/' !in comp && Shape(keys, ChildPrefix(d) + comp, f)
    ensures Shape(keys, d, f)
  {
    RestBelow(d, comp, f);
    ComponentThenRest(comp, Rest(ChildPrefix(d) + comp, f));
  }

  lemma EntryShape(keys: set<Key>, d: Key, m: Key)
    requires m in keys && Under(d, m)
    ensures Shape(keys, d, Child(d, m))
  {
    var comp := Rest(d, m)[..SlashAt(Rest(d, m))];
    assert Rest(d, Child(d, m)) == comp;
    if comp == "" {
      EmptyComponentLoops(d, m);
    } else {
      assert comp[0] in comp && comp[|comp| - 1] in comp;
    }
  }

  lemma {:induction false} ReachedShape(keys: set<Key>, d: Key, path: seq<Key>, f: Key)
    requires WalksTo(keys, d, path, f)
    ensures Shape(keys, d, f)
    decreases |path|
  {
    var m :| m in keys && Under(d, m) && Child(d, m) == path[0];
    var comp := Rest(d, m)[..SlashAt(Rest(d, m))];
    if |path| > 1 {
      if comp == "" {
        EmptyComponentLoops(d, m);
        ReachedShape(keys, d, path[1..], f);
      } else {
        Descend(d, m);
        ReachedShape(keys, path[0], path[1..], f);
        ShapeBelow(keys, d, comp, f);
      }
    } else {
      EntryShape(keys, d, m);
    }
  }

  lemma LeadingSlash(d: Key, m: Key)
    requires ChildPrefix(d) + "/" <= m
    ensures Under(d, m) && Rest(d, m)[0] == '/'
  {
    assert m[|ChildPrefix(d)|] == (ChildPrefix(d) + "/")[|ChildPrefix(d)|];
  }

  lemma {:induction false} CleanWalkStaysUnder(keys: set<Key>, d: Key, path: seq<Key>, f: Key)
    requires WalksTo(keys, d, path, f)
    requires forall m :: m in Descendants(keys, d) ==> Clean(Rest(d, m))
    ensures Under(d, f)
  {
    ReachedShape(keys, d, path, f);
    if Rest(d, f) == "" {
      var m :| m in keys && f + "/" <= m;
      LeadingSlash(d, m);
    }
  }

  /** The walk from `d` meets exactly what a recursive List of `d` returns. */
  ghost predicate WalkIsExact(keys: set<Key>, d: Key) {
    forall f :: Reached(keys, d, f) <==> f in Descendants(keys, d)
  }

  lemma DoubledSlash(d: Key, m: Key, m2: Key)
    requires Under(d, m) && m[|m| - 1] == '/' && m + "/" <= m2
    ensures Under(d, m2) && !NoDoubleSlash(Rest(d, m2))
  {
    var r2, i := Rest(d, m2), |Rest(d, m)| - 1;
    assert r2[i] == (m + "/")[|m| - 1] && r2[i + 1] == (m + "/")[|m|];
  }

  lemma ExactShape(keys: set<Key>, d: Key, m: Key)
    requires WalkIsExact(keys, d) && m in Descendants(keys, d)
    ensures Shape(keys, d, m)
  {
    assert Reached(keys, d, m);
    var path :| WalksTo(keys, d, path, m);
    ReachedShape(keys, d, path, m);
  }

  lemma DirtyBreaksWalk(keys: set<Key>, d: Key, m: Key)
    requires WalkIsExact(keys, d) && m in Descendants(keys, d)
    ensures Clean(Rest(d, m))
  {
    ExactShape(keys, d, m);
    if m[|m| - 1] == '/' {
      var m2 :| m2 in keys && m + "/" <= m2;
      DoubledSlash(d, m, m2);
      ExactShape(keys, d, m2);
    }
  }

  /**
    From any directory, walking non-recursive listings reaches exactly the keys that the recursive listing
    returns if and only if no key below the directory has an empty path component.
   */
  lemma WalkExactIffClean(keys: set<Key>, d: Key)
    ensures WalkIsExact(keys, d) <==> forall m :: m in Descendants(keys, d) ==> Clean(Rest(d, m))
  {
    if WalkIsExact(keys, d) {
      forall m | m in Descendants(keys, d)
        ensures Clean(Rest(d, m))
      {
        DirtyBreaksWalk(keys, d, m);
      }
    }
    if forall m :: m in Descendants(keys, d) ==> Clean(Rest(d, m)) {
      forall f
        ensures Reached(keys, d, f) <==> f in Descendants(keys, d)
      {
        if f in Descendants(keys, d) {
          var path := CleanIsReached(keys, d, f);
        }
        if Reached(keys, d, f) {
          var path :| WalksTo(keys, d, path, f);
          CleanWalkStaysUnder(keys, d, path, f);
        }
      }
    }
  }

  /** A key with an empty component is listed recursively but never met by the walk. */
  lemma DoubleSlashIsMissed()
    ensures "a//b" in Descendants({"a//b"}, "a") && !Reached({"a//b"}, "a", "a//b")
  {
    var m: Key := "a//b";
    assert ChildPrefix("a") == "a/";
    assert Under("a", m) && m in Descendants({m}, "a");
    assert Rest("a", m) == "/b";
    if Reached({m}, "a", m) {
      var path :| WalksTo({m}, "a", path, m);
      ReachedShape({m}, "a", path, m);
    }
  }
}
