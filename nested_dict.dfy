/** Nested-dictionary assembly (`_get_dictionary`): every tensor key under a
    prefix is placed in a tree of dicts at the position given by splitting the
    rest of the key on "/". A Python dict keeps insertion order, so a dict is
    an association list here. */
module NestedDict {
  import opened Outcomes
  import opened Strings
  import opened Slices
  import opened Views

  datatype Tree = Leaf(value: Value) | Dict(entries: seq<(string, Tree)>)

  /** The position of `name` in a dict, if it is a key of it. */
  function Find(es: seq<(string, Tree)>, name: string): (r: Option<nat>)
    ensures r.Some? ==> r.value < |es| && es[r.value].0 == name
    ensures r.Some? ==> forall i :: 0 <= i < r.value ==> es[i].0 != name
    ensures r.None? ==> forall i :: 0 <= i < |es| ==> es[i].0 != name
  {
    if |es| == 0 then None
    else if es[0].0 == name then Some(0)
    else match Find(es[1..], name)
      case None => None
      case Some(i) => Some(i + 1)
  }

  /** `cur[name] = t`: replaces the value in place, or appends a new key. */
  function Put(es: seq<(string, Tree)>, name: string, t: Tree): seq<(string, Tree)> {
    match Find(es, name)
    case None => es + [(name, t)]
    case Some(i) => es[i := (name, t)]
  }

  /** The leaf reached by following `path` through the dicts, if any. */
  function Lookup(t: Tree, path: seq<string>): Option<Value>
    decreases t
  {
    if |path| == 0 then (if t.Leaf? then Some(t.value) else None)
    else match t
      case Leaf(_) => None
      case Dict(es) =>
        match Find(es, path[0])
        case None => None
        case Some(i) => Lookup(es[i].1, path[1..])
  }

  /** Keys of one dict are distinct, at every level. */
  predicate WellFormed(t: Tree)
    decreases t
  {
    match t
    case Leaf(_) => true
    case Dict(es) =>
      (forall i, j :: 0 <= i < j < |es| ==> es[i].0 != es[j].0) &&
      (forall i :: 0 <= i < |es| ==> WellFormed(es[i].1))
  }

  /** The dict under `name`; an empty one when the name is absent (the
      source creates it) or holds a leaf. */
  function Sub(es: seq<(string, Tree)>, name: string): seq<(string, Tree)> {
    match Find(es, name)
    case Some(i) => (if es[i].1.Dict? then es[i].1.entries else [])
    case None => []
  }

  /** The inner walk of `_get_dictionary`: descend through `path` minus its
      last piece, creating each missing dict, then store `v` under the last
      piece. A leaf standing where a dict is needed is replaced by an empty
      dict; keys that are leaf paths of a schema never reach that case. */
  function InsertInto(es: seq<(string, Tree)>, path: seq<string>, v: Value): seq<(string, Tree)>
    requires |path| >= 1
    decreases |path|
  {
    if |path| == 1 then Put(es, path[0], Leaf(v))
    else Put(es, path[0], Dict(InsertInto(Sub(es, path[0]), path[1..], v)))
  }

  lemma FindPutSame(es: seq<(string, Tree)>, name: string, t: Tree)
    ensures Find(Put(es, name, t), name).Some?
    ensures Put(es, name, t)[Find(Put(es, name, t), name).value] == (name, t)
    ensures |Put(es, name, t)| >= |es| && |Put(es, name, t)| >= 1
  {
    var r := Put(es, name, t);
    match Find(es, name)
    case None =>
      assert r[|es|].0 == name;
      var k := Find(r, name);
      assert k.Some? && k.value == |es|;
    case Some(i) =>
      assert r[i].0 == name;
      var k := Find(r, name);
      assert k.Some? && k.value <= i;
      assert forall j :: 0 <= j < i ==> r[j] == es[j];
  }

  /** Find returns the first position holding the name. */
  lemma FindFirst(es: seq<(string, Tree)>, name: string, i: nat)
    requires i < |es| && es[i].0 == name
    requires forall j :: 0 <= j < i ==> es[j].0 != name
    ensures Find(es, name) == Some(i)
  {
  }

  lemma FindAbsent(es: seq<(string, Tree)>, name: string)
    requires forall j :: 0 <= j < |es| ==> es[j].0 != name
    ensures Find(es, name) == None
  {
  }

  lemma FindPutOther(es: seq<(string, Tree)>, name: string, t: Tree, other: string)
    requires other != name
    ensures Find(Put(es, name, t), other) == Find(es, other)
    ensures Find(es, other).Some? ==> Put(es, name, t)[Find(es, other).value] == es[Find(es, other).value]
  {
    var r := Put(es, name, t);
    assert |r| >= |es|;
    assert forall j :: 0 <= j < |es| && es[j].0 != name ==> r[j] == es[j];
    assert forall j :: |es| <= j < |r| ==> r[j].0 == name;
    match Find(es, other)
    case None =>
      assert forall j :: 0 <= j < |es| ==> es[j].0 != other;
      FindAbsent(r, other);
    case Some(i) =>
      assert r[i] == es[i];
      FindFirst(r, other, i);
  }

  /** Looking up a non-empty path in a dict is looking up the rest of the path
      in the child named by its first piece. */
  lemma LookupStep(es: seq<(string, Tree)>, q: seq<string>)
    requires |q| >= 1
    ensures Lookup(Dict(es), q) ==
      match Find(es, q[0]) case None => None case Some(i) => Lookup(es[i].1, q[1..])
  {
  }

  /** Below a name that holds no leaf, lookups in its dict are lookups in
      the parent with the name in front. */
  lemma SubLookup(es: seq<(string, Tree)>, name: string, q: seq<string>)
    requires Lookup(Dict(es), [name]).None?
    ensures Lookup(Dict(Sub(es, name)), q) == Lookup(Dict(es), [name] + q)
  {
    var full := [name] + q;
    assert full[0] == name && full[1..] == q;
    LookupStep(es, full);
    LookupStep(es, [name]);
  }

  ghost predicate NothingAbove(es: seq<(string, Tree)>, p: seq<string>) {
    forall j :: 1 <= j < |p| ==> Lookup(Dict(es), p[..j]).None?
  }

  ghost predicate NothingBelow(es: seq<(string, Tree)>, p: seq<string>) {
    forall r :: Lookup(Dict(es), r).Some? ==> !(|r| > |p| && r[..|p|] == p)
  }

  /** A lookup that leaves the inserted path at its first piece is untouched. */
  lemma InsertLookupOther(es: seq<(string, Tree)>, p: seq<string>, v: Value, q: seq<string>)
    requires |p| >= 1 && |q| >= 1 && q[0] != p[0]
    ensures Lookup(Dict(InsertInto(es, p, v)), q) == Lookup(Dict(es), q)
  {
    var child := if |p| == 1 then Leaf(v) else Dict(InsertInto(Sub(es, p[0]), p[1..], v));
    var es2 := InsertInto(es, p, v);
    assert es2 == Put(es, p[0], child);
    FindPutOther(es, p[0], child, q[0]);
    LookupStep(es, q);
    LookupStep(es2, q);
  }

  /** A lookup through the first piece of the inserted path goes through the new child. */
  lemma InsertLookupSame(es: seq<(string, Tree)>, p: seq<string>, v: Value, q: seq<string>)
    requires |p| >= 1 && |q| >= 1 && q[0] == p[0]
    ensures Lookup(Dict(InsertInto(es, p, v)), q) ==
      Lookup(if |p| == 1 then Leaf(v) else Dict(InsertInto(Sub(es, p[0]), p[1..], v)), q[1..])
  {
    var child := if |p| == 1 then Leaf(v) else Dict(InsertInto(Sub(es, p[0]), p[1..], v));
    var es2 := InsertInto(es, p, v);
    assert es2 == Put(es, p[0], child);
    FindPutSame(es, p[0], child);
    LookupStep(es2, q);
  }

  /** What lies above and below the path in a dict also lies above and below
      the rest of the path in its child. */
  lemma SubConditions(es: seq<(string, Tree)>, p: seq<string>)
    requires |p| >= 2
    requires NothingAbove(es, p) && NothingBelow(es, p)
    ensures Lookup(Dict(es), [p[0]]).None?
    ensures NothingAbove(Sub(es, p[0]), p[1..]) && NothingBelow(Sub(es, p[0]), p[1..])
  {
    var sub, p' := Sub(es, p[0]), p[1..];
    assert p[..1] == [p[0]];
    forall j | 1 <= j < |p'| ensures Lookup(Dict(sub), p'[..j]).None? {
      SubLookup(es, p[0], p'[..j]);
      assert [p[0]] + p'[..j] == p[..j + 1];
    }
    forall r | Lookup(Dict(sub), r).Some? ensures !(|r| > |p'| && r[..|p'|] == p') {
      SubLookup(es, p[0], r);
      ConsPrefix(p[0], r, p);
    }
  }

  lemma ConsPrefix(x: string, r: seq<string>, p: seq<string>)
    requires |p| >= 1 && p[0] == x
    ensures (|r| > |p| - 1 && r[..|p| - 1] == p[1..]) <==> (|[x] + r| > |p| && ([x] + r)[..|p|] == p)
  {
    if |r| > |p| - 1 {
      assert ([x] + r)[..|p|] == [x] + r[..|p| - 1];
      assert p == [x] + p[1..];
    }
  }

  lemma {:induction false} InsertLookupAt(es: seq<(string, Tree)>, p: seq<string>, v: Value, q: seq<string>)
    requires |p| >= 1
    requires NothingAbove(es, p) && NothingBelow(es, p)
    ensures Lookup(Dict(InsertInto(es, p, v)), q) == if q == p then Some(v) else Lookup(Dict(es), q)
    decreases |p|
  {
    if |q| == 0 {
    } else if q[0] != p[0] {
      InsertLookupOther(es, p, v, q);
    } else {
      InsertLookupSame(es, p, v, q);
      if |p| == 1 {
        if |q| > 1 {
          assert q[..|p|] == p;
        } else {
          assert q == p;
        }
      } else {
        var p', q' := p[1..], q[1..];
        SubConditions(es, p);
        InsertLookupAt(Sub(es, p[0]), p', v, q');
        SubLookup(es, p[0], q');
        assert q == [p[0]] + q';
        assert (q == p) == (q' == p');
      }
    }
  }

  /** Inserting at a path where no leaf lies above and nothing lies below adds
      exactly that leaf and leaves every other lookup as it was. */
  lemma InsertLookup(es: seq<(string, Tree)>, p: seq<string>, v: Value)
    requires |p| >= 1
    requires NothingAbove(es, p) && NothingBelow(es, p)
    ensures forall q :: Lookup(Dict(InsertInto(es, p, v)), q) == if q == p then Some(v) else Lookup(Dict(es), q)
  {
    forall q ensures Lookup(Dict(InsertInto(es, p, v)), q) == if q == p then Some(v) else Lookup(Dict(es), q) {
      InsertLookupAt(es, p, v, q);
    }
  }

  lemma {:induction false} InsertWellFormed(es: seq<(string, Tree)>, p: seq<string>, v: Value)
    requires |p| >= 1
    requires WellFormed(Dict(es))
    ensures WellFormed(Dict(InsertInto(es, p, v)))
    ensures |InsertInto(es, p, v)| >= |es| && |InsertInto(es, p, v)| >= 1
    decreases |p|
  {
    var sub := Sub(es, p[0]);
    var child := if |p| == 1 then Leaf(v) else Dict(InsertInto(sub, p[1..], v));
    if |p| > 1 {
      assert WellFormed(Dict(sub));
      InsertWellFormed(sub, p[1..], v);
    }
    assert WellFormed(child);
    PutWellFormed(es, p[0], child);
  }

  lemma PutWellFormed(es: seq<(string, Tree)>, name: string, t: Tree)
    requires WellFormed(Dict(es)) && WellFormed(t)
    ensures WellFormed(Dict(Put(es, name, t)))
    ensures |Put(es, name, t)| >= |es| && |Put(es, name, t)| >= 1
  {
    var r := Put(es, name, t);
    match Find(es, name)
    case None =>
      assert forall i :: 0 <= i < |es| ==> r[i] == es[i];
    case Some(k) =>
      assert forall i :: 0 <= i < |es| ==> r[i].0 == es[i].0;
      assert forall i :: 0 <= i < |es| && i != k ==> r[i] == es[i];
  }

  /** Keys as schema flattening produces them: distinct leaf paths, none of
      which continues another with a "/". */
  predicate LeafPaths(keys: seq<string>) {
    (forall i, j :: 0 <= i < j < |keys| ==> keys[i] != keys[j]) &&
    (forall i, j :: 0 <= i < |keys| && 0 <= j < |keys| ==> !StartsWith(keys[j], keys[i] + "/"))
  }

  /** `subpath if subpath.endswith("/") else subpath + "/"` */
  function Normalise(subpath: string): (r: string)
    ensures EndsWith(r, "/")
    ensures EndsWith(subpath, "/") ==> r == subpath
    ensures !EndsWith(subpath, "/") ==> r == subpath + "/"
  {
    if EndsWith(subpath, "/") then subpath else subpath + "/"
  }

  /** `key[len(prefix):].split("/")` */
  function PathOf(key: string, prefix: string): seq<string>
    requires StartsWith(key, prefix)
  {
    Split(key[|prefix|..], '/')
  }

  /** The value stored for one key: its tensor view over the leaf slice. */
  function LeafOf(key: string, sl: Slice, lazy: bool): Value {
    Deliver(TensorView(key, [sl], lazy))
  }

  /** The outer loop of `_get_dictionary`, over the keys in order. */
  function Fill(keys: seq<string>, prefix: string, sl: Slice, lazy: bool): seq<(string, Tree)> {
    if |keys| == 0 then []
    else
      var es := Fill(keys[..|keys| - 1], prefix, sl, lazy);
      var k := keys[|keys| - 1];
      if StartsWith(k, prefix) then InsertInto(es, PathOf(k, prefix), LeafOf(k, sl, lazy)) else es
  }

  /** The slice every leaf gets: the one given, else the whole sample range.
      (The source tests `slice_ or ...`, which also discards the index 0; see
      LeafSliceAsWritten.) */
  function LeafSlice(slice: Option<Slice>, n: nat): (r: Slice)
    ensures slice.Some? ==> r == slice.value
    ensures slice.None? ==> r == Between(0, n)
  {
    if slice.Some? then slice.value else Between(0, n)
  }

  /** `slice_ or slice(0, n)` as written: Python truthiness of the index. */
  function LeafSliceAsWritten(slice: Option<Slice>, n: nat): Slice {
    if slice.Some? && Truthy(slice.value) then slice.value else Between(0, n)
  }

  /** The dictionary for `subpath`, or KeyError when no key lies under it. */
  function Assemble(keys: seq<string>, subpath: string, sl: Slice, lazy: bool): Result<Tree> {
    var es := Fill(keys, Normalise(subpath), sl, lazy);
    if |es| == 0 then Err(DictionaryKeyNotFound) else Ok(Dict(es))
  }

  function GetDictionary(keys: seq<string>, subpath: string, slice: Option<Slice>, n: nat, lazy: bool): Result<Tree> {
    Assemble(keys, subpath, LeafSlice(slice, n), lazy)
  }

  function GetDictionaryAsWritten(keys: seq<string>, subpath: string, slice: Option<Slice>, n: nat, lazy: bool): Result<Tree> {
    Assemble(keys, subpath, LeafSliceAsWritten(slice, n), lazy)
  }

  /** Distinct keys under one prefix have distinct paths, and one key's path
      is a proper prefix of another's only when the other continues it with "/". */
  lemma PathPrefix(k1: string, k2: string, prefix: string)
    requires StartsWith(k1, prefix) && StartsWith(k2, prefix)
    ensures PathOf(k1, prefix) == PathOf(k2, prefix) ==> k1 == k2
    ensures var a, b := PathOf(k1, prefix), PathOf(k2, prefix);
      |a| < |b| && b[..|a|] == a ==> StartsWith(k2, k1 + "/")
  {
    var s1, s2 := k1[|prefix|..], k2[|prefix|..];
    var a, b := PathOf(k1, prefix), PathOf(k2, prefix);
    JoinSplit(s1, '/');
    JoinSplit(s2, '/');
    assert k1 == prefix + s1 && k2 == prefix + s2;
    if |a| < |b| && b[..|a|] == a {
      var rest := b[|a|..];
      assert b == a + rest;
      JoinAppend(a, rest, '/');
      assert s2 == s1 + "/" + Join(rest, '/');
      assert k2 == (k1 + "/") + Join(rest, '/');
    }
  }

  /** Every key under the prefix sits at its own path. */
  predicate Placed(es: seq<(string, Tree)>, keys: seq<string>, prefix: string, sl: Slice, lazy: bool) {
    forall i :: 0 <= i < |keys| && StartsWith(keys[i], prefix) ==>
      Lookup(Dict(es), PathOf(keys[i], prefix)) == Some(LeafOf(keys[i], sl, lazy))
  }

  /** Every leaf comes from a key under the prefix. */
  ghost predicate OnlyKeys(es: seq<(string, Tree)>, keys: seq<string>, prefix: string, sl: Slice, lazy: bool) {
    forall q :: Lookup(Dict(es), q).Some? ==>
      exists i :: 0 <= i < |keys| && StartsWith(keys[i], prefix) && PathOf(keys[i], prefix) == q &&
        Lookup(Dict(es), q) == Some(LeafOf(keys[i], sl, lazy))
  }

  predicate NoMatch(keys: seq<string>, prefix: string) {
    forall i :: 0 <= i < |keys| ==> !StartsWith(keys[i], prefix)
  }

  /** A proper prefix of a sequence. */
  predicate ProperPrefix(a: seq<string>, b: seq<string>) {
    |a| < |b| && b[..|a|] == a
  }

  /** Among leaf paths no key's path is a proper prefix of another key's. */
  lemma NoNesting(ks: seq<string>, k: string, prefix: string)
    requires LeafPaths(ks + [k]) && StartsWith(k, prefix)
    ensures forall i :: 0 <= i < |ks| && StartsWith(ks[i], prefix) ==>
      !ProperPrefix(PathOf(ks[i], prefix), PathOf(k, prefix)) &&
      !ProperPrefix(PathOf(k, prefix), PathOf(ks[i], prefix)) &&
      PathOf(ks[i], prefix) != PathOf(k, prefix)
  {
    var keys := ks + [k];
    var m := |ks|;
    assert keys[m] == k && forall i :: 0 <= i < m ==> keys[i] == ks[i];
    forall i | 0 <= i < m && StartsWith(ks[i], prefix)
      ensures !ProperPrefix(PathOf(ks[i], prefix), PathOf(k, prefix))
      ensures !ProperPrefix(PathOf(k, prefix), PathOf(ks[i], prefix))
      ensures PathOf(ks[i], prefix) != PathOf(k, prefix)
    {
      PathPrefix(ks[i], k, prefix);
      PathPrefix(k, ks[i], prefix);
      assert !StartsWith(keys[m], keys[i] + "/") && !StartsWith(keys[i], keys[m] + "/");
      assert keys[i] != keys[m];
    }
  }

  /** The keys seen so far leave room for the next key's path. */
  lemma InsertRoom(es: seq<(string, Tree)>, ks: seq<string>, k: string, prefix: string, sl: Slice, lazy: bool)
    requires LeafPaths(ks + [k]) && StartsWith(k, prefix)
    requires OnlyKeys(es, ks, prefix, sl, lazy)
    ensures NothingAbove(es, PathOf(k, prefix)) && NothingBelow(es, PathOf(k, prefix))
  {
    var p := PathOf(k, prefix);
    NoNesting(ks, k, prefix);
    forall j | 1 <= j < |p| ensures Lookup(Dict(es), p[..j]).None? {
      assert ProperPrefix(p[..j], p);
    }
    forall q | Lookup(Dict(es), q).Some? ensures !(|q| > |p| && q[..|p|] == p) {
      assert (|q| > |p| && q[..|p|] == p) == ProperPrefix(p, q);
    }
  }

  /** One step of the outer loop on a key under the prefix keeps every key
      in place and adds the new one. */
  lemma InsertStep(es: seq<(string, Tree)>, ks: seq<string>, k: string, prefix: string, sl: Slice, lazy: bool)
    requires LeafPaths(ks + [k]) && StartsWith(k, prefix)
    requires Placed(es, ks, prefix, sl, lazy) && OnlyKeys(es, ks, prefix, sl, lazy)
    ensures var es2 := InsertInto(es, PathOf(k, prefix), LeafOf(k, sl, lazy));
      Placed(es2, ks + [k], prefix, sl, lazy) && OnlyKeys(es2, ks + [k], prefix, sl, lazy)
  {
    var keys := ks + [k];
    var m := |ks|;
    assert keys[m] == k && forall i :: 0 <= i < m ==> keys[i] == ks[i];
    var p := PathOf(k, prefix);
    var v := LeafOf(k, sl, lazy);
    InsertRoom(es, ks, k, prefix, sl, lazy);
    InsertLookup(es, p, v);
    var es2 := InsertInto(es, p, v);
    NoNesting(ks, k, prefix);
    forall i | 0 <= i < |keys| && StartsWith(keys[i], prefix)
      ensures Lookup(Dict(es2), PathOf(keys[i], prefix)) == Some(LeafOf(keys[i], sl, lazy))
    {
      if i < m {
        assert PathOf(ks[i], prefix) != p;
      }
    }
    forall q | Lookup(Dict(es2), q).Some?
      ensures exists i :: (0 <= i < |keys| && StartsWith(keys[i], prefix) && PathOf(keys[i], prefix) == q &&
        Lookup(Dict(es2), q) == Some(LeafOf(keys[i], sl, lazy)))
    {
      if q == p {
        assert StartsWith(keys[m], prefix) && PathOf(keys[m], prefix) == q;
      } else {
        var i :| 0 <= i < m && StartsWith(ks[i], prefix) && PathOf(ks[i], prefix) == q &&
          Lookup(Dict(es), q) == Some(LeafOf(ks[i], sl, lazy));
        assert keys[i] == ks[i];
      }
    }
  }

  /** One step of the outer loop on a key outside the prefix changes nothing. */
  lemma SkipStep(es: seq<(string, Tree)>, ks: seq<string>, k: string, prefix: string, sl: Slice, lazy: bool)
    requires !StartsWith(k, prefix)
    requires Placed(es, ks, prefix, sl, lazy) && OnlyKeys(es, ks, prefix, sl, lazy)
    ensures Placed(es, ks + [k], prefix, sl, lazy) && OnlyKeys(es, ks + [k], prefix, sl, lazy)
    ensures NoMatch(ks + [k], prefix) <==> NoMatch(ks, prefix)
  {
    var keys := ks + [k];
    assert forall i :: 0 <= i < |ks| ==> keys[i] == ks[i];
    forall q | Lookup(Dict(es), q).Some?
      ensures exists i :: (0 <= i < |keys| && StartsWith(keys[i], prefix) && PathOf(keys[i], prefix) == q &&
        Lookup(Dict(es), q) == Some(LeafOf(keys[i], sl, lazy)))
    {
      var i :| 0 <= i < |ks| && StartsWith(ks[i], prefix) && PathOf(ks[i], prefix) == q &&
        Lookup(Dict(es), q) == Some(LeafOf(ks[i], sl, lazy));
      assert keys[i] == ks[i];
    }
  }

  lemma {:induction false} FillContents(keys: seq<string>, prefix: string, sl: Slice, lazy: bool)
    requires LeafPaths(keys)
    ensures Placed(Fill(keys, prefix, sl, lazy), keys, prefix, sl, lazy)
    ensures OnlyKeys(Fill(keys, prefix, sl, lazy), keys, prefix, sl, lazy)
    ensures WellFormed(Dict(Fill(keys, prefix, sl, lazy)))
    ensures |Fill(keys, prefix, sl, lazy)| == 0 <==> NoMatch(keys, prefix)
  {
    if |keys| > 0 {
      var m := |keys| - 1;
      var ks, k := keys[..m], keys[m];
      assert keys == ks + [k];
      assert forall i :: 0 <= i < m ==> ks[i] == keys[i];
      assert LeafPaths(ks);
      FillContents(ks, prefix, sl, lazy);
      var es := Fill(ks, prefix, sl, lazy);
      if StartsWith(k, prefix) {
        InsertStep(es, ks, k, prefix, sl, lazy);
        InsertWellFormed(es, PathOf(k, prefix), LeafOf(k, sl, lazy));
        assert !NoMatch(keys, prefix) by { assert StartsWith(keys[m], prefix); }
      } else {
        SkipStep(es, ks, k, prefix, sl, lazy);
      }
    }
  }

  /** The dictionary for a subpath holds, at the path given by splitting the
      rest of each key under the normalised prefix on "/", that key's tensor
      view over the leaf slice; it holds nothing else and its dicts have
      distinct keys, so keys sharing a segment share the dict under it. When
      no key lies under the prefix the lookup raises KeyError. */
  lemma GetDictionaryContents(keys: seq<string>, subpath: string, slice: Option<Slice>, n: nat, lazy: bool)
    requires LeafPaths(keys)
    ensures var r := GetDictionary(keys, subpath, slice, n, lazy);
      var prefix, sl := Normalise(subpath), LeafSlice(slice, n);
      (r.Err? <==> NoMatch(keys, prefix)) &&
      (r.Err? ==> r.error == DictionaryKeyNotFound) &&
      (r.Ok? ==> r.value.Dict? && WellFormed(r.value) &&
                 Placed(r.value.entries, keys, prefix, sl, lazy) &&
                 OnlyKeys(r.value.entries, keys, prefix, sl, lazy))
  {
    FillContents(keys, Normalise(subpath), LeafSlice(slice, n), lazy);
  }

  /** The leaf slice as written agrees with the intended one except for the
      index 0, which it replaces by the whole sample range. */
  lemma LeafSliceDiscrepancy(slice: Option<Slice>, n: nat)
    ensures LeafSliceAsWritten(slice, n) == LeafSlice(slice, n) <==> slice != Some(Index(0))
    ensures LeafSliceAsWritten(Some(Index(0)), n) == LeafSlice(None, n)
  {
  }

  /** Every key under the prefix is read over the one slice given, or over
      the whole sample range [0, n) when none is given; as written, the index
      0 is read over the whole range too. */
  lemma DictionaryLeafSlices(keys: seq<string>, subpath: string, slice: Option<Slice>, n: nat, lazy: bool)
    requires LeafPaths(keys)
    ensures var r, prefix := GetDictionary(keys, subpath, slice, n, lazy), Normalise(subpath);
      forall i :: 0 <= i < |keys| && StartsWith(keys[i], prefix) ==>
        r.Ok? && Lookup(r.value, PathOf(keys[i], prefix)) ==
          Some(Deliver(TensorView(keys[i], [if slice.Some? then slice.value else Between(0, n)], lazy)))
    ensures var r, prefix := GetDictionaryAsWritten(keys, subpath, slice, n, lazy), Normalise(subpath);
      forall i :: 0 <= i < |keys| && StartsWith(keys[i], prefix) ==>
        r.Ok? && Lookup(r.value, PathOf(keys[i], prefix)) ==
          Some(Deliver(TensorView(keys[i], [if slice.Some? && slice != Some(Index(0)) then slice.value else Between(0, n)], lazy)))
  {
    var prefix := Normalise(subpath);
    FillContents(keys, prefix, LeafSlice(slice, n), lazy);
    FillContents(keys, prefix, LeafSliceAsWritten(slice, n), lazy);
    LeafSliceDiscrepancy(slice, n);
    forall i | 0 <= i < |keys| && StartsWith(keys[i], prefix)
      ensures !NoMatch(keys, prefix)
    {
    }
  }

  /** `ds["/d", 0]` on a dataset of five samples with the one key "/d/a": as
      written the leaf is the view over samples 0..5, not over sample 0. */
  lemma SampleZeroOfDictionary()
    ensures GetDictionaryAsWritten(["/d/a"], "/d", Some(Index(0)), 5, true) ==
      Ok(Dict([("a", Leaf(AsView(TensorView("/d/a", [Between(0, 5)], true))))]))
    ensures GetDictionary(["/d/a"], "/d", Some(Index(0)), 5, true) ==
      Ok(Dict([("a", Leaf(AsView(TensorView("/d/a", [Index(0)], true))))]))
  {
    var key := "/d/a";
    assert StartsWith(key, "/d/");
    assert key[|"/d/"|..] == "a";
    SplitNoSeparator("a", '/');
    assert PathOf(key, "/d/") == ["a"];
    assert Normalise("/d") == "/d/";
    assert ["/d/a"][..0] == [];
    forall sl: Slice ensures Fill([key], "/d/", sl, true) == [("a", Leaf(LeafOf(key, sl, true)))] {
      assert Fill([key][..0], "/d/", sl, true) == [];
      assert InsertInto([], ["a"], LeafOf(key, sl, true)) == Put([], "a", Leaf(LeafOf(key, sl, true)));
    }
  }
}
