/** Byte-wise order of keys and the sorting that List applies to its result. */
module KeyOrder {

  predicate Before(a: string, b: string) {
    b != "" && (a == "" || a[0] < b[0] || (a[0] == b[0] && Before(a[1..], b[1..])))
  }

  ghost predicate Sorted(s: seq<string>) {
    forall i, j :: 0 <= i < j < |s| ==> Before(s[i], s[j])
  }

  lemma {:induction false} BeforeTransitive(a: string, b: string, c: string)
    requires Before(a, b) && Before(b, c)
    ensures Before(a, c)
  {
    if a != "" && a[0] == b[0] == c[0] {
      BeforeTransitive(a[1..], b[1..], c[1..]);
    }
  }

  lemma {:induction false} BeforeTotal(a: string, b: string)
    ensures a == b || Before(a, b) || Before(b, a)
  {
    if a != "" && b != "" && a[0] == b[0] {
      BeforeTotal(a[1..], b[1..]);
      assert a == [a[0]] + a[1..] && b == [b[0]] + b[1..];
    }
  }

  /** The two strings first differ at this position, where the one before has the smaller byte. */
  predicate SmallerAt(a: string, b: string, i: nat) {
    i < |a| && i < |b| && a[..i] == b[..i] && a[i] < b[i]
  }

  /** The order of sort.Strings: a proper prefix comes first, else the smaller byte at the first difference. */
  lemma {:induction false} BeforeMeans(a: string, b: string)
    ensures Before(a, b) <==> (a <= b && a != b) || exists i: nat :: SmallerAt(a, b, i)
  {
    if a != "" && b != "" {
      if a[0] == b[0] {
        BeforeMeans(a[1..], b[1..]);
        assert a == [a[0]] + a[1..] && b == [b[0]] + b[1..];
        if exists i: nat :: SmallerAt(a, b, i) {
          var i: nat :| SmallerAt(a, b, i);
          assert a[1..][..i - 1] == a[..i][1..] && b[1..][..i - 1] == b[..i][1..];
          assert SmallerAt(a[1..], b[1..], i - 1);
        }
        if exists i: nat :: SmallerAt(a[1..], b[1..], i) {
          var i: nat :| SmallerAt(a[1..], b[1..], i);
          assert a[..i + 1] == [a[0]] + a[1..][..i] && b[..i + 1] == [b[0]] + b[1..][..i];
          assert SmallerAt(a, b, i + 1);
        }
      } else {
        FirstByteDecides(a, b);
      }
    }
  }

  lemma FirstByteDecides(a: string, b: string)
    requires a != "" && b != "" && a[0] != b[0]
    ensures !(a <= b) && ((exists i: nat :: SmallerAt(a, b, i)) <==> a[0] < b[0])
  {
    if a[0] < b[0] {
      assert SmallerAt(a, b, 0);
    }
    forall i: nat | 0 < i <= |a| && i <= |b|
      ensures a[..i] != b[..i]
    {
      assert a[..i][0] == a[0] && b[..i][0] == b[0];
    }
  }

  function Insert(x: string, s: seq<string>): (r: seq<string>)
    requires Sorted(s) && x !in s
    ensures Sorted(r)
    ensures forall y :: y in r <==> y == x || y in s
  {
    if s == [] then [x]
    else if Before(x, s[0]) then
      assert forall i :: 0 < i < |s| ==> Before(x, s[i]) by {
        forall i | 0 < i < |s| ensures Before(x, s[i]) { BeforeTransitive(x, s[0], s[i]); }
      }
      [x] + s
    else
      BeforeTotal(x, s[0]);
      assert s == [s[0]] + s[1..];
      var t := Insert(x, s[1..]);
      assert forall i :: 0 <= i < |t| ==> Before(s[0], t[i]) by {
        forall i | 0 <= i < |t| ensures Before(s[0], t[i]) { assert t[i] in t; }
      }
      [s[0]] + t
  }

  /** sort.Strings on a list without duplicates. */
  function Sort(s: seq<string>): (r: seq<string>)
    requires forall i, j :: 0 <= i < j < |s| ==> s[i] != s[j]
    ensures Sorted(r)
    ensures forall y :: y in r <==> y in s
  {
    if s == [] then []
    else
      assert s == [s[0]] + s[1..];
      Insert(s[0], Sort(s[1..]))
  }
}

/**
  RedisStorage as a file store: one hash per stored key plus the index set, updated together in MULTI/EXEC.
  Each method that changes Redis does so in one transaction.
 */
module CertStore {
  import opened CertTree
  import opened KeyOrder
  import opened Wrappers

  type Bytes = seq<bv8>

  /** The hash of one stored key. */
  datatype File = File(value: Bytes, size: int, modified: int)

  datatype ListResult = NotExist | Entries(keys: seq<Key>)

  datatype StatResult = Missing | FileInfo(size: int, modified: int) | DirInfo

  /** The key itself or anything below it as a directory. */
  predicate InSubtree(key: Key, m: Key) {
    m == key || key + "/" <= m
  }

  /** What Delete takes is the key itself and the keys that continue it with a slash; a sibling is spared. */
  lemma SubtreeMeans(key: Key, m: Key)
    ensures InSubtree(key, m) <==> m == key || exists rest :: m == key + "/" + rest
    ensures forall c, rest :: c != '/' && m == key + [c] + rest ==> !InSubtree(key, m)
  {
    if key + "/" <= m {
      assert m == key + "/" + m[|key| + 1..];
    }
    forall c, rest | c != '/' && m == key + [c] + rest
      ensures !InSubtree(key, m)
    {
      assert m[|key|] == c;
    }
  }

  /** The two transactions that change the store. */
  datatype Tx = Put(key: Key, file: File) | Drop(victims: set<Key>)

  datatype Contents = Contents(files: map<Key, File>, index: set<Key>)

  function Exec(s: Contents, tx: Tx): Contents {
    match tx
    case Put(k, f) => Contents(s.files[k := f], s.index + {k})
    case Drop(v) => Contents(s.files - v, s.index - v)
  }

  /** What Delete of `key` drops, given the index its SMEMBERS returned. */
  function Victims(key: Key, index: set<Key>): set<Key> {
    set m | m in index && InSubtree(key, m)
  }

  /** What a Load of the key finds. */
  function Fetch(s: Contents, key: Key): Option<Bytes> {
    if key in s.files then Some(s.files[key].value) else None
  }

  class RedisStorage {
    var files: map<Key, File>
    var index: set<Key>

    /** The index is exactly the set of stored files. */
    ghost predicate Valid()
      reads this
    {
      index == files.Keys
    }

    ghost function Value(): Contents
      reads this
    {
      Contents(files, index)
    }

    constructor ()
      ensures Valid() && files == map[]
    {
      files, index := map[], {};
    }

    method Store(key: Key, value: Bytes, now: int)
      requires Valid()
      modifies this
      ensures Valid() && files == old(files)[key := File(value, |value|, now)]
      ensures Value() == Exec(old(Value()), Put(key, File(value, |value|, now)))
    {
      files := files[key := File(value, |value|, now)];
      index := index + {key};
    }

    method Load(key: Key) returns (r: Option<Bytes>)
      ensures r == Fetch(Value(), key)
    {
      if key !in files {
        return None;
      }
      return Some(files[key].value);
    }

    /** SMEMBERS: the index in no particular order. */
    method Members() returns (members: seq<Key>)
      ensures forall m :: m in members <==> m in index
      ensures forall i, j :: 0 <= i < j < |members| ==> members[i] != members[j]
    {
      members := [];
      var left := index;
      while left != {}
        invariant left <= index
        invariant forall m :: m in members <==> m in index - left
        invariant forall i, j :: 0 <= i < j < |members| ==> members[i] != members[j]
        decreases |left|
      {
        var m :| m in left;
        assert m !in members;
        members := members + [m];
        left := left - {m};
      }
    }

    /** The DEL and SREM transaction of Delete. */
    method Remove(victims: seq<Key>)
      requires Valid()
      modifies this
      ensures Valid()
      ensures files == map m | m in old(files) && m !in victims :: old(files)[m]
      ensures Value() == Exec(old(Value()), Drop(set m | m in victims))
    {
      var i := 0;
      while i < |victims|
        invariant i <= |victims| && Valid()
        invariant files == map m | m in old(files) && m !in victims[..i] :: old(files)[m]
      {
        assert victims[..i + 1] == victims[..i] + [victims[i]];
        files := files - {victims[i]};
        index := index - {victims[i]};
        i := i + 1;
      }
    }

    /** Removes exactly the subtree of `key`; every other file keeps its value. */
    method Delete(key: Key)
      requires Valid()
      modifies this
      ensures Valid()
      ensures files == map m | m in old(files) && !InSubtree(key, m) :: old(files)[m]
      ensures Value() == Exec(old(Value()), Drop(Victims(key, old(index))))
    {
      var members := Members();
      var victims: seq<Key> := [];
      for i := 0 to |members|
        invariant files == old(files) && Valid()
        invariant forall m :: m in victims <==> m in members[..i] && InSubtree(key, m)
      {
        assert members[..i + 1] == members[..i] + [members[i]];
        if members[i] == key || key + "/" <= members[i] {
          victims := victims + [members[i]];
        }
      }
      assert members[..|members|] == members;
      if |victims| == 0 {
        assert forall m :: m in files ==> m in members && m !in victims;
        return;
      }
      Remove(victims);
    }

    method HasChildren(key: Key) returns (r: bool)
      ensures r <==> exists m :: m in index && key + "/" <= m
    {
      var members := Members();
      for i := 0 to |members|
        invariant forall j :: 0 <= j < i ==> !(key + "/" <= members[j])
      {
        if key + "/" <= members[i] {
          assert members[i] in index;
          return true;
        }
      }
      return false;
    }

    /** True exactly for a stored file and for a proper directory prefix of one. */
    method Exists(key: Key) returns (r: bool)
      requires Valid()
      ensures r <==> exists m :: m in files && InSubtree(key, m)
    {
      if key in files {
        return true;
      }
      r := HasChildren(key);
    }

    /** Reports a file's own metadata, a directory, or a miss; it misses exactly when Exists is false. */
    method Stat(key: Key) returns (r: StatResult)
      requires Valid()
      ensures r != Missing <==> exists m :: m in files && InSubtree(key, m)
      ensures key in files ==> r == FileInfo(files[key].size, files[key].modified)
      ensures key !in files ==> !r.FileInfo?
    {
      if key in files {
        assert InSubtree(key, key);
        return FileInfo(files[key].size, files[key].modified);
      }
      var dir := HasChildren(key);
      r := if dir then DirInfo else Missing;
    }

    /** Sorted, without duplicates, and exactly the children (or, recursively, the descendants) of the directory. */
    method List(prefix: Key, recursive: bool) returns (r: ListResult)
      requires Valid()
      ensures var d := TrimSlash(prefix);
        var want := if recursive then Descendants(files.Keys, d) else Children(files.Keys, d);
        && (r == NotExist <==> want == {} && d !in files)
        && (r != NotExist ==> Sorted(r.keys) && forall k :: k in r.keys <==> k in want)
    {
      var members := Members();
      var d := TrimSlash(prefix);
      var childPrefix := ChildPrefix(d);
      var seen: set<Key> := {};
      var out: seq<Key> := [];
      var prefixIsFile := false;
      for i := 0 to |members|
        invariant prefixIsFile <==> d in members[..i]
        invariant forall k :: k in out <==> k in seen
        invariant forall a, b :: 0 <= a < b < |out| ==> out[a] != out[b]
        invariant seen == Listed(members[..i], d, recursive)
      {
        assert members[..i + 1] == members[..i] + [members[i]];
        var m := members[i];
        ListedSnoc(members[..i], m, d, recursive);
        if m == d {
          prefixIsFile := true;
          continue;
        }
        if childPrefix != "" && !(childPrefix <= m) {
          continue;
        }
        var rest := m[|childPrefix|..];
        if rest == "" {
          continue;
        }
        var entry := m;
        if !recursive {
          var slash := SlashAt(rest);
          if slash < |rest| {
            entry := childPrefix + rest[..slash];
          }
        }
        EntryIsChild(d, m);
        if entry !in seen {
          seen := seen + {entry};
          out := out + [entry];
        }
      }
      assert members[..|members|] == members;
      assert seen == if recursive then Descendants(files.Keys, d) else Children(files.Keys, d);
      if |out| == 0 {
        return if prefixIsFile then Entries([]) else NotExist;
      }
      assert out[0] in out;
      r := Entries(Sort(out));
    }
  }

  ghost function Entry(d: Key, m: Key, recursive: bool): Key
    requires Under(d, m)
  {
    if recursive then m else Child(d, m)
  }

  ghost function Listed(members: seq<Key>, d: Key, recursive: bool): set<Key> {
    set m | m in members && Under(d, m) :: Entry(d, m, recursive)
  }

  lemma ListedSnoc(members: seq<Key>, m: Key, d: Key, recursive: bool)
    ensures Listed(members + [m], d, recursive) ==
      Listed(members, d, recursive) + (if Under(d, m) then {Entry(d, m, recursive)} else {})
  {
    var all := members + [m];
    forall k | k in Listed(members, d, recursive)
      ensures k in Listed(all, d, recursive)
    {
      var x :| x in members && Under(d, x) && k == Entry(d, x, recursive);
      assert x in all;
    }
    assert m in all;
  }

  lemma EntryIsChild(d: Key, m: Key)
    requires Under(d, m)
    ensures SlashAt(Rest(d, m)) == |Rest(d, m)| ==> Child(d, m) == m
  {
    assert m == ChildPrefix(d) + Rest(d, m);
  }

  // ---- Interference: transactions of several edges in any order ----

  function ExecAll(s: Contents, txs: seq<Tx>): Contents
    decreases |txs|
  {
    if txs == [] then s else ExecAll(Exec(s, txs[0]), txs[1..])
  }

  /** However the transactions of several edges interleave, the index lists exactly the stored files. */
  lemma {:induction false} IndexNeverDrifts(s: Contents, txs: seq<Tx>)
    requires s.index == s.files.Keys
    ensures ExecAll(s, txs).index == ExecAll(s, txs).files.Keys
    decreases |txs|
  {
    if txs != [] {
      IndexNeverDrifts(Exec(s, txs[0]), txs[1..]);
    }
  }

  /** The transaction stores the key or drops it. */
  predicate Touches(tx: Tx, key: Key) {
    match tx
    case Put(k, _) => k == key
    case Drop(v) => key in v
  }

  /**
    After any transactions of any number of edges a Load gives the value of the last Store of that very key, or a miss
    if a Delete dropped it later; when none touched the key (`last` is -1), what was there before.
   */
  lemma {:induction false} LoadIsLastWrite(s: Contents, txs: seq<Tx>, last: int, key: Key)
    requires -1 <= last < |txs| && (0 <= last ==> Touches(txs[last], key))
    requires forall i :: last < i < |txs| ==> !Touches(txs[i], key)
    ensures Fetch(ExecAll(s, txs), key) ==
      if last < 0 then Fetch(s, key) else if txs[last].Put? then Some(txs[last].file.value) else None
    decreases |txs|
  {
    if txs != [] {
      LoadIsLastWrite(Exec(s, txs[0]), txs[1..], if last < 0 then -1 else last - 1, key);
    }
  }

  /**
    Delete reads the index, then drops in a later transaction. Whatever ran in between, it removes only keys of
    its subtree, all of those it saw, and leaves alone every key first stored after its read.
   */
  lemma DeleteUnderInterference(s: Contents, txs: seq<Tx>, key: Key, m: Key)
    requires s.index == s.files.Keys
    ensures var mid := ExecAll(s, txs); var end := Exec(mid, Drop(Victims(key, s.index)));
      && end.index == end.files.Keys
      && (m in end.files <==> m in mid.files && !(m in s.files && InSubtree(key, m)))
      && (m in end.files ==> end.files[m] == mid.files[m])
  {
    IndexNeverDrifts(s, txs);
  }
}
