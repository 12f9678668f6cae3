/** Environment of a container: defaults with overrides replaced by key, appended or removed. */
module Env {
  import opened Names

  // ---------------------------------------------------------------------------------
  // Entries

  predicate IsAssignment(e: string) {
    '=' in e
  }

  /** What is before the first '=', or the whole entry. */
  function KeyOf(e: string): string {
    if e == "" || e[0] == '=' then "" else [e[0]] + KeyOf(e[1..])
  }

  /** The last place where `key` occurs. */
  function LastIndex(env: seq<string>, key: string): (r: Option<nat>)
    ensures r.Some? ==> r.value < |env| && KeyOf(env[r.value]) == key
    ensures forall i :: 0 <= i < |env| && KeyOf(env[i]) == key ==> r.Some? && i <= r.value
  {
    if env == [] then None
    else if KeyOf(env[|env| - 1]) == key then Some(|env| - 1)
    else LastIndex(env[..|env| - 1], key)
  }

  /** The last override that names `key`. */
  function LastFor(overrides: seq<string>, key: string): Option<string> {
    var i := LastIndex(overrides, key);
    if i.Some? then Some(overrides[i.value]) else None
  }

  function NonEmpty(env: seq<string>): seq<string> {
    if env == [] then []
    else NonEmpty(env[..|env| - 1]) + if env[|env| - 1] == "" then [] else [env[|env| - 1]]
  }

  // ---------------------------------------------------------------------------------
  // What the result must be

  /** What becomes of default `i`: the last entry for a key follows the last override for it. */
  function Slot(defaults: seq<string>, overrides: seq<string>, i: nat): string
    requires i < |defaults|
  {
    var key := KeyOf(defaults[i]);
    var o := LastFor(overrides, key);
    if LastIndex(defaults, key) != Some(i) || o.None? then defaults[i]
    else if IsAssignment(o.value) then o.value else ""
  }

  function Slots(defaults: seq<string>, overrides: seq<string>): (r: seq<string>)
    ensures |r| == |defaults| && forall i :: 0 <= i < |r| ==> r[i] == Slot(defaults, overrides, i)
  {
    seq(|defaults|, i requires 0 <= i < |defaults| => Slot(defaults, overrides, i))
  }

  predicate IsNew(defaults: seq<string>, o: string) {
    IsAssignment(o) && LastIndex(defaults, KeyOf(o)).None?
  }

  /** Assignments to keys without a default, in order. */
  function Added(defaults: seq<string>, overrides: seq<string>): seq<string> {
    if overrides == [] then []
    else
      var last := overrides[|overrides| - 1];
      Added(defaults, overrides[..|overrides| - 1]) + if IsNew(defaults, last) then [last] else []
  }

  function Merged(defaults: seq<string>, overrides: seq<string>): seq<string> {
    Slots(defaults, overrides) + Added(defaults, overrides)
  }

  // ---------------------------------------------------------------------------------
  // The three loops

  /** Where each key of the defaults occurs last. */
  method Index(defaults: seq<string>) returns (cache: map<string, nat>)
    ensures Cached(defaults, cache)
  {
    cache := map[];
    for i := 0 to |defaults|
      invariant Cached(defaults[..i], cache)
    {
      assert defaults[..i + 1][..i] == defaults[..i];
      cache := cache[KeyOf(defaults[i]) := i];
    }
    assert defaults[..|defaults|] == defaults;
  }

  ghost predicate Cached(defaults: seq<string>, cache: map<string, nat>) {
    forall key :: LastIndex(defaults, key) == if key in cache then Some(cache[key]) else None
  }

  lemma OneMoreOverride(defaults: seq<string>, os: seq<string>, o: string, i: nat)
    requires i < |defaults|
    ensures Slot(defaults, os + [o], i) ==
              if LastIndex(defaults, KeyOf(o)) == Some(i) then (if IsAssignment(o) then o else "")
              else Slot(defaults, os, i)
  {
    assert (os + [o])[..|os|] == os;
  }

  lemma OneMoreAdded(defaults: seq<string>, os: seq<string>, o: string)
    ensures Added(defaults, os + [o]) == Added(defaults, os) + if IsNew(defaults, o) then [o] else []
  {
    assert (os + [o])[..|os|] == os;
  }

  lemma KeyOfBare(o: string)
    requires !IsAssignment(o)
    ensures KeyOf(o) == o
  {
    if o == "" {
    } else {
      assert o == [o[0]] + o[1..];
      KeyOfBare(o[1..]);
    }
  }

  method Apply(defaults: seq<string>, overrides: seq<string>, cache: map<string, nat>) returns (env: seq<string>)
    requires Cached(defaults, cache)
    ensures env == Merged(defaults, overrides)
  {
    env := defaults;
    assert env == Merged(defaults, overrides[..0]);
    for n := 0 to |overrides|
      invariant env == Merged(defaults, overrides[..n])
    {
      var o := overrides[n];
      assert overrides[..n + 1] == overrides[..n] + [o];
      ApplyOne(defaults, overrides[..n], o);
      if !IsAssignment(o) {
        KeyOfBare(o);
        if o in cache {
          env := env[cache[o] := ""];
        }
      } else if KeyOf(o) in cache {
        env := env[cache[KeyOf(o)] := o];
      } else {
        env := env + [o];
      }
    }
    assert overrides[..|overrides|] == overrides;
  }

  lemma ApplyOne(defaults: seq<string>, os: seq<string>, o: string)
    ensures var i := LastIndex(defaults, KeyOf(o));
            var env := Merged(defaults, os);
            Merged(defaults, os + [o]) ==
              if i.Some? then env[i.value := if IsAssignment(o) then o else ""]
              else if IsAssignment(o) then env + [o] else env
  {
    OneMoreAdded(defaults, os, o);
    SlotsOneMore(defaults, os, o);
    var i := LastIndex(defaults, KeyOf(o));
    if i.Some? {
      UpdateFront(Slots(defaults, os), Added(defaults, os), i.value, if IsAssignment(o) then o else "");
    } else {
      AddBehind(Slots(defaults, os), Added(defaults, os), if IsAssignment(o) then [o] else []);
    }
  }

  lemma UpdateFront(a: seq<string>, b: seq<string>, i: nat, x: string)
    requires i < |a|
    ensures a[i := x] + (b + []) == (a + b)[i := x]
  {
  }

  lemma AddBehind(a: seq<string>, b: seq<string>, c: seq<string>)
    ensures a + (b + c) == a + b + c && a + b + [] == a + b
  {
  }

  lemma SlotsOneMore(defaults: seq<string>, os: seq<string>, o: string)
    ensures var i := LastIndex(defaults, KeyOf(o));
            var slots := Slots(defaults, os);
            Slots(defaults, os + [o]) == if i.Some? then slots[i.value := if IsAssignment(o) then o else ""] else slots
  {
    forall i | 0 <= i < |defaults|
      ensures Slots(defaults, os + [o])[i] ==
                if LastIndex(defaults, KeyOf(o)) == Some(i) then (if IsAssignment(o) then o else "")
                else Slots(defaults, os)[i]
    {
      OneMoreOverride(defaults, os, o, i);
    }
  }

  lemma {:induction false} NonEmptyConcat(a: seq<string>, b: seq<string>)
    ensures NonEmpty(a + b) == NonEmpty(a) + NonEmpty(b)
  {
    if b == [] {
      assert a + b == a;
    } else {
      assert (a + b)[..|a + b| - 1] == a + b[..|b| - 1];
      NonEmptyConcat(a, b[..|b| - 1]);
    }
  }

  lemma {:induction false} RemoveEmpty(a: seq<string>, b: seq<string>)
    ensures NonEmpty(a + [""] + b) == NonEmpty(a + b)
  {
    assert (a + [""])[..|a|] == a;
    NonEmptyConcat(a + [""], b);
    NonEmptyConcat(a, b);
  }

  lemma {:induction false} NoneEmpty(env: seq<string>)
    requires "" !in env
    ensures NonEmpty(env) == env
  {
    if env == [] {
    } else {
      NoneEmpty(env[..|env| - 1]);
    }
  }

  /** Remove the empty entries in place. */
  method Compact(list: seq<string>) returns (env: seq<string>)
    ensures env == NonEmpty(list)
  {
    env := list;
    var i := 0;
    while i < |env|
      invariant 0 <= i <= |env| && "" !in env[..i] && NonEmpty(env) == NonEmpty(list)
      decreases |env| - i
    {
      if env[i] == "" {
        RemoveEmpty(env[..i], env[i + 1..]);
        assert env == env[..i] + [""] + env[i + 1..];
        env := env[..i] + env[i + 1..];
        i := i - 1;
      }
      i := i + 1;
    }
    NoneEmpty(env);
  }

  /** ReplaceOrAppendEnvValues. */
  method ReplaceOrAppendEnvValues(defaults: seq<string>, overrides: seq<string>) returns (env: seq<string>)
    ensures env == NonEmpty(Merged(defaults, overrides))
  {
    var cache := Index(defaults);
    env := Apply(defaults, overrides, cache);
    env := Compact(env);
  }

  // ---------------------------------------------------------------------------------
  // What the caller gets

  /** The last entry for `key` in a list once the empty entries are gone. */
  lemma {:induction false} LastOfNonEmpty(list: seq<string>, i: nat, key: string)
    requires i < |list| && list[i] != "" && KeyOf(list[i]) == key
    requires forall j :: i < j < |list| ==> list[j] == "" || KeyOf(list[j]) != key
    ensures LastFor(NonEmpty(list), key) == Some(list[i])
  {
    var front, last := list[..|list| - 1], list[|list| - 1];
    var r := NonEmpty(list);
    if i == |list| - 1 {
      assert r[|r| - 1] == list[i];
    } else {
      LastOfNonEmpty(front, i, key);
      if last != "" {
        assert r[..|r| - 1] == NonEmpty(front);
      } else {
        assert r == NonEmpty(front);
      }
    }
  }

  /** Slots keep their key or become empty. */
  lemma SlotKey(defaults: seq<string>, overrides: seq<string>, i: nat)
    requires i < |defaults|
    ensures Slot(defaults, overrides, i) == "" || KeyOf(Slot(defaults, overrides, i)) == KeyOf(defaults[i])
  {
  }

  lemma {:induction false} AddedNew(defaults: seq<string>, overrides: seq<string>, o: string)
    ensures o in Added(defaults, overrides) <==> o in overrides && IsNew(defaults, o)
  {
    if overrides == [] {
    } else {
      AddedNew(defaults, overrides[..|overrides| - 1], o);
      assert overrides == overrides[..|overrides| - 1] + [overrides[|overrides| - 1]];
    }
  }

  /** Assignments to a new key end with the last one. */
  lemma {:induction false} AddedLast(defaults: seq<string>, overrides: seq<string>, key: string) returns (i: nat)
    requires LastIndex(defaults, key).None?
    requires LastFor(overrides, key).Some? && IsAssignment(LastFor(overrides, key).value)
    ensures var added := Added(defaults, overrides);
            && i < |added| && added[i] == LastFor(overrides, key).value
            && forall j :: i < j < |added| ==> KeyOf(added[j]) != key
  {
    var front, last := overrides[..|overrides| - 1], overrides[|overrides| - 1];
    if KeyOf(last) == key {
      i := |Added(defaults, front)|;
    } else {
      i := AddedLast(defaults, front, key);
    }
  }

  /** If the last override that names a key is an assignment, it is the last entry for that key. */
  lemma LastWins(defaults: seq<string>, overrides: seq<string>, key: string)
    requires LastFor(overrides, key).Some? && IsAssignment(LastFor(overrides, key).value)
    ensures LastFor(NonEmpty(Merged(defaults, overrides)), key) == LastFor(overrides, key)
  {
    var slots, added, list := Slots(defaults, overrides), Added(defaults, overrides), Merged(defaults, overrides);
    var at := LastIndex(defaults, key);
    if at.Some? {
      forall j | at.value < j < |list| ensures list[j] == "" || KeyOf(list[j]) != key {
        if j < |slots| {
          SlotKey(defaults, overrides, j);
        } else {
          AddedNew(defaults, overrides, list[j]);
        }
      }
      LastOfNonEmpty(list, at.value, key);
    } else {
      var i := AddedLast(defaults, overrides, key);
      assert list[|slots| + i] == added[i];
      forall j | |slots| + i < j < |list| ensures KeyOf(list[j]) != key {
        assert list[j] == added[j - |slots|];
      }
      LastOfNonEmpty(list, |slots| + i, key);
    }
  }

  ghost predicate HasKey(env: seq<string>, key: string) {
    exists e :: e in env && KeyOf(e) == key
  }

  /** A key whose last override is a bare name stays all the same: an earlier default for it, or,
      if there is none, any assignment among the overrides. */
  ghost predicate Survives(defaults: seq<string>, overrides: seq<string>, key: string) {
    var at := LastIndex(defaults, key);
    if at.Some? then exists j :: 0 <= j < |defaults| && j != at.value && KeyOf(defaults[j]) == key && defaults[j] != ""
    else exists o :: o in overrides && IsAssignment(o) && KeyOf(o) == key
  }

  lemma {:induction false} NonEmptyHas(list: seq<string>, e: string)
    ensures e in NonEmpty(list) <==> e in list && e != ""
  {
    if list == [] {
    } else {
      NonEmptyHas(list[..|list| - 1], e);
      assert list == list[..|list| - 1] + [list[|list| - 1]];
    }
  }

  lemma MergedHas(defaults: seq<string>, overrides: seq<string>, e: string)
    ensures e in Merged(defaults, overrides) <==>
              || (exists i :: 0 <= i < |defaults| && Slot(defaults, overrides, i) == e)
              || (e in overrides && IsNew(defaults, e))
  {
    AddedNew(defaults, overrides, e);
    var slots := Slots(defaults, overrides);
    assert e in slots <==> exists i :: 0 <= i < |slots| && slots[i] == e;
  }

  /** If the last override that names a key is a bare name, the key is gone unless it survives
      elsewhere; in particular it is gone if it has exactly one default. */
  lemma BareNameRemoves(defaults: seq<string>, overrides: seq<string>, key: string)
    requires LastFor(overrides, key).Some? && !IsAssignment(LastFor(overrides, key).value)
    ensures HasKey(NonEmpty(Merged(defaults, overrides)), key) <==> Survives(defaults, overrides, key)
  {
    var list, at := Merged(defaults, overrides), LastIndex(defaults, key);
    if HasKey(NonEmpty(list), key) {
      var e :| e in NonEmpty(list) && KeyOf(e) == key;
      NonEmptyHas(list, e);
      MergedHas(defaults, overrides, e);
      if e in overrides && IsNew(defaults, e) {
        assert Survives(defaults, overrides, key);
      } else {
        var i :| 0 <= i < |defaults| && Slot(defaults, overrides, i) == e;
        SlotKey(defaults, overrides, i);
        assert KeyOf(defaults[i]) == key && i != at.value && defaults[i] != "";
      }
    }
    if Survives(defaults, overrides, key) {
      var e: string;
      if at.Some? {
        var j :| 0 <= j < |defaults| && j != at.value && KeyOf(defaults[j]) == key && defaults[j] != "";
        e := defaults[j];
        assert Slot(defaults, overrides, j) == e;
      } else {
        e :| e in overrides && IsAssignment(e) && KeyOf(e) == key;
      }
      NonEmptyHas(list, e);
      MergedHas(defaults, overrides, e);
      assert IsAssignment(e) ==> e != "";
      assert e in NonEmpty(list);
    }
  }

  /** For instance: a key with two defaults keeps the first one when it is removed. */
  lemma BareNameExample()
    ensures NonEmpty(Merged(["A=1", "A=2"], ["A"])) == ["A=1"]
  {
    var defaults, overrides := ["A=1", "A=2"], ["A"];
    assert "A=1"[1..] == "=1" && "A=2"[1..] == "=2" && "A"[1..] == "";
    assert KeyOf("A=1") == "A" && KeyOf("A=2") == "A" && KeyOf("A") == "A";
    assert LastFor(overrides, "A") == Some("A") && LastIndex(defaults, "A") == Some(1);
    assert Slots(defaults, overrides) == ["A=1", ""];
    assert overrides[..0] == [] && Added(defaults, overrides) == [];
    assert ["A=1", ""] + [] == ["A=1", ""] && ["A=1", ""][..1] == ["A=1"] && ["A=1"][..0] == [];
    assert NonEmpty(["A=1"]) == ["A=1"];
  }

  /** Where an entry goes when the empty ones before it are dropped. */
  function Place(list: seq<string>, i: nat): nat
    requires i <= |list|
  {
    |NonEmpty(list[..i])|
  }

  lemma PlaceOf(list: seq<string>, i: nat)
    requires i < |list| && list[i] != ""
    ensures Place(list, i) < |NonEmpty(list)| && NonEmpty(list)[Place(list, i)] == list[i]
    ensures Place(list, i + 1) == Place(list, i) + 1
  {
    assert list == list[..i + 1] + list[i + 1..] && list[..i + 1][..i] == list[..i];
    NonEmptyConcat(list[..i + 1], list[i + 1..]);
  }

  lemma PlaceGrows(list: seq<string>, i: nat, j: nat)
    requires i <= j <= |list|
    ensures Place(list, i) <= Place(list, j)
  {
    assert list[..j] == list[..i] + list[i..j];
    NonEmptyConcat(list[..i], list[i..j]);
  }

  /** Non-empty defaults whose key no override names stay, in their order. */
  lemma OrderKept(defaults: seq<string>, overrides: seq<string>, i: nat, j: nat)
    requires i < j < |defaults| && defaults[i] != "" && defaults[j] != ""
    requires LastFor(overrides, KeyOf(defaults[i])).None? && LastFor(overrides, KeyOf(defaults[j])).None?
    ensures var list := Merged(defaults, overrides);
            var env := NonEmpty(list);
            && Place(list, i) < Place(list, j) < |env|
            && env[Place(list, i)] == defaults[i] && env[Place(list, j)] == defaults[j]
  {
    var list := Merged(defaults, overrides);
    assert list[i] == defaults[i] && list[j] == defaults[j];
    PlaceOf(list, i);
    PlaceOf(list, j);
    PlaceGrows(list, i + 1, j);
  }
}
