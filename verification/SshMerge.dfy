/**
 * Merging SSH options (mergeSshConfigValues and parseSshConfig of src/remote/sshConfig.ts).
 * A record is a list of entries in insertion order, as the host language keeps it.
 */
module SshMerge {
  import opened Basics
  import opened Text

  datatype Entry = Entry(key: string, value: string)

  type Record = seq<Entry>

  // ----- records -----

  function Get(r: Record, key: string): Option<string> {
    if r == [] then None else if r[0].key == key then Some(r[0].value) else Get(r[1..], key)
  }

  /** `r[key] = value`. */
  function Put(r: Record, key: string, value: string): Record {
    if r == [] then [Entry(key, value)]
    else if r[0].key == key then [Entry(key, value)] + r[1..]
    else [r[0]] + Put(r[1..], key, value)
  }

  /** `delete r[key]`. */
  function Remove(r: Record, key: string): Record {
    if r == [] then [] else if r[0].key == key then r[1..] else [r[0]] + Remove(r[1..], key)
  }

  predicate IsRecord(r: Record) {
    forall i, j :: 0 <= i < j < |r| ==> r[i].key != r[j].key
  }

  function LowerChar(c: char): char {
    if 'A' <= c <= 'Z' then (c as int + 32) as char else c
  }

  function Lower(s: string): string {
    seq(|s|, i requires 0 <= i < |s| => LowerChar(s[i]))
  }

  /** The entry whose key is `lower` apart from case. */
  function Find(r: Record, lower: string): Option<Entry> {
    if r == [] then None else if Lower(r[0].key) == lower then Some(r[0]) else Find(r[1..], lower)
  }

  /** The last such entry; the same one when no two keys differ in case only. */
  function FindLast(r: Record, lower: string): Option<Entry> {
    if r == [] then None
    else
      var later := FindLast(r[1..], lower);
      if later.Some? then later else if Lower(r[0].key) == lower then Some(r[0]) else None
  }

  /** A record of the host language whose keys are not empty. */
  predicate Keyed(r: Record) {
    IsRecord(r) && forall i :: 0 <= i < |r| ==> r[i].key != ""
  }

  /** No two keys differ in case only, and none is empty. */
  predicate Proper(r: Record) {
    && (forall i, j :: 0 <= i < j < |r| ==> Lower(r[i].key) != Lower(r[j].key))
    && (forall i :: 0 <= i < |r| ==> r[i].key != "")
  }

  function ValueOf(r: Record, key: string): string {
    if Get(r, key).Some? then Get(r, key).value else ""
  }

  // ----- the merge -----

  const SETENV := "setenv"
  const SET_ENV := "SetEnv"

  /** The map from lower-case keys to the keys as the overrides spell them. */
  function CaseIndex(index: Record, overrides: Record): Record
    decreases |overrides|
  {
    if overrides == [] then index
    else CaseIndex(Put(index, Lower(overrides[0].key), overrides[0].key), overrides[1..])
  }

  datatype Merging = Merging(merged: Record, pending: Record)

  /** One key of `config`. */
  function MergeKey(overrides: Record, m: Merging, e: Entry): Merging {
    var lower := Lower(e.key);
    var spelled := Get(m.pending, lower);
    if spelled.Some? && spelled.value != "" then
      var value := ValueOf(overrides, spelled.value);
      Merging(
        if lower == SETENV then Put(m.merged, SET_ENV, if value == "" then e.value else e.value + " " + value)
        else if value != "" then Put(m.merged, spelled.value, value)
        else m.merged,
        Remove(m.pending, lower))
    else if e.value != "" then m.(merged := Put(m.merged, e.key, e.value))
    else m
  }

  function MergeKeys(overrides: Record, m: Merging, config: Record): Merging
    decreases |config|
  {
    if config == [] then m else MergeKeys(overrides, MergeKey(overrides, m, config[0]), config[1..])
  }

  /** One override no key of `config` has used up. */
  function AddPending(overrides: Record, merged: Record, p: Entry): Record {
    var value := ValueOf(overrides, p.value);
    if p.key == SETENV && ValueOf(merged, SET_ENV) != ""
    then Put(merged, SET_ENV, ValueOf(merged, SET_ENV) + " " + value)
    else Put(merged, p.value, value)
  }

  function AddRest(overrides: Record, merged: Record, pending: Record): Record
    decreases |pending|
  {
    if pending == [] then merged else AddRest(overrides, AddPending(overrides, merged, pending[0]), pending[1..])
  }

  function Merge(config: Record, overrides: Record): Record {
    var m := MergeKeys(overrides, Merging([], CaseIndex([], overrides)), config);
    AddRest(overrides, m.merged, m.pending)
  }

  method MergeSshConfigValues(config: Record, overrides: Record) returns (merged: Record)
    ensures merged == Merge(config, overrides)
  {
    merged := [];
    var index: Record := [];
    for i := 0 to |overrides|
      invariant CaseIndex(index, overrides[i..]) == CaseIndex([], overrides)
    {
      index := Put(index, Lower(overrides[i].key), overrides[i].key);
      assert overrides[i..][1..] == overrides[i + 1..];
    }
    for i := 0 to |config|
      invariant MergeKeys(overrides, Merging(merged, index), config[i..])
             == MergeKeys(overrides, Merging([], CaseIndex([], overrides)), config)
    {
      var e := config[i];
      var lower := Lower(e.key);
      var spelled := Get(index, lower);
      if spelled.Some? && spelled.value != "" {
        var value := ValueOf(overrides, spelled.value);
        index := Remove(index, lower);
        if lower == SETENV {
          merged := Put(merged, SET_ENV, if value == "" then e.value else e.value + " " + value);
        } else if value != "" {
          merged := Put(merged, spelled.value, value);
        }
      } else if e.value != "" {
        merged := Put(merged, e.key, e.value);
      }
      assert config[i..][1..] == config[i + 1..];
    }
    for i := 0 to |index|
      invariant AddRest(overrides, merged, index[i..]) == Merge(config, overrides)
    {
      var value := ValueOf(overrides, index[i].value);
      if index[i].key == SETENV && ValueOf(merged, SET_ENV) != "" {
        merged := Put(merged, SET_ENV, ValueOf(merged, SET_ENV) + " " + value);
      } else {
        merged := Put(merged, index[i].value, value);
      }
      assert index[i..][1..] == index[i + 1..];
    }
  }

  // ----- what a merge contains -----

  /** The merged entry for a key, from the entries of the two inputs. */
  function MergedEntry(lower: string, config: Option<Entry>, override: Option<Entry>): Option<Entry> {
    if config.None? then override
    else if override.None? then if config.value.value != "" then config else None
    else if lower == SETENV then
      var added := if override.value.value == "" then "" else " " + override.value.value;
      Some(Entry(SET_ENV, config.value.value + added))
    else if override.value.value != "" then override
    else None
  }

  lemma LowerSetEnv()
    ensures Lower(SET_ENV) == SETENV
  {
  }

  lemma {:induction false} FindMember(r: Record, lower: string)
    ensures Find(r, lower).Some? ==> Find(r, lower).value in r && Lower(Find(r, lower).value.key) == lower
    ensures Find(r, lower).None? ==> forall e :: e in r ==> Lower(e.key) != lower
  {
    if r != [] { FindMember(r[1..], lower); }
  }

  /** Setting a key that is new, apart from case, or spelled the same. */
  lemma {:induction false} PutFinds(r: Record, key: string, value: string, lower: string)
    requires Find(r, Lower(key)).None? || Find(r, Lower(key)).value.key == key
    ensures Find(Put(r, key, value), lower) == if lower == Lower(key) then Some(Entry(key, value)) else Find(r, lower)
  {
    if r != [] && r[0].key != key { PutFinds(r[1..], key, value, lower); }
  }

  lemma ProperCons(e: Entry, rest: Record)
    requires Proper(rest) && e.key != "" && forall x :: x in rest ==> Lower(x.key) != Lower(e.key)
    ensures Proper([e] + rest)
  {
  }

  lemma {:induction false} PutProper(r: Record, key: string, value: string)
    requires Proper(r) && key != "" && (Find(r, Lower(key)).None? || Find(r, Lower(key)).value.key == key)
    ensures Proper(Put(r, key, value))
  {
    if r != [] {
      if r[0].key == key {
        ProperCons(Entry(key, value), r[1..]);
      } else {
        PutProper(r[1..], key, value);
        PutMembers(r[1..], key, value);
        ProperCons(r[0], Put(r[1..], key, value));
      }
    }
  }

  lemma {:induction false} PutGets(r: Record, key: string, value: string, k: string)
    ensures Get(Put(r, key, value), k) == if k == key then Some(value) else Get(r, k)
  {
    if r != [] && r[0].key != key { PutGets(r[1..], key, value, k); }
  }

  lemma {:induction false} GetMember(r: Record, k: string)
    ensures Get(r, k).Some? ==> Entry(k, Get(r, k).value) in r
    ensures Get(r, k).None? ==> forall e :: e in r ==> e.key != k
  {
    if r != [] { GetMember(r[1..], k); }
  }

  lemma {:induction false} PutMembers(r: Record, key: string, value: string)
    ensures forall e :: e in Put(r, key, value) ==> e == Entry(key, value) || e in r
    ensures IsRecord(r) ==> IsRecord(Put(r, key, value))
  {
    if r != [] && r[0].key != key {
      PutMembers(r[1..], key, value);
      var rest := Put(r[1..], key, value);
      forall j | 0 <= j < |rest| && IsRecord(r) ensures rest[j].key != r[0].key {
        assert rest[j] in rest;
      }
    }
  }

  lemma {:induction false} RemoveGets(r: Record, key: string, k: string)
    requires IsRecord(r)
    ensures IsRecord(Remove(r, key)) && forall e :: e in Remove(r, key) ==> e in r
    ensures Get(Remove(r, key), k) == if k == key then None else Get(r, k)
  {
    if r != [] {
      if r[0].key == key {
        GetMember(r[1..], key);
      } else {
        RemoveGets(r[1..], key, k);
        var rest := Remove(r[1..], key);
        forall j | 0 <= j < |rest| ensures rest[j].key != r[0].key {
          assert rest[j] in rest;
        }
      }
    }
  }

  /** Every pending entry points from a lower-case key to a key that differs in case at most. */
  predicate Points(pending: Record) {
    IsRecord(pending) && forall p :: p in pending ==> p.value != "" && Lower(p.value) == p.key
  }

  function Pend(overrides: Record, pending: Record, lower: string): Option<Entry> {
    var spelled := Get(pending, lower);
    if spelled.None? then None else Some(Entry(spelled.value, ValueOf(overrides, spelled.value)))
  }

  lemma {:induction false} CaseIndexGets(index: Record, overrides: Record, lower: string)
    requires Keyed(overrides) && Points(index)
    ensures Points(CaseIndex(index, overrides))
    ensures Get(CaseIndex(index, overrides), lower)
         == if FindLast(overrides, lower).Some? then Some(FindLast(overrides, lower).value.key) else Get(index, lower)
    decreases |overrides|
  {
    if overrides != [] {
      var key := overrides[0].key;
      PutMembers(index, Lower(key), key);
      PutGets(index, Lower(key), key, lower);
      CaseIndexGets(Put(index, Lower(key), key), overrides[1..], lower);
    }
  }

  /** What putting one entry for a key that is not merged yet does. */
  lemma PutNew(merged: Record, lower: string, key: string, value: string, asked: string)
    requires Proper(merged) && key != "" && Lower(key) == lower && Find(merged, lower).None?
    ensures Proper(Put(merged, key, value))
    ensures Find(Put(merged, key, value), asked) == if asked == lower then Some(Entry(key, value)) else Find(merged, asked)
  {
    PutFinds(merged, key, value, asked);
    PutProper(merged, key, value);
  }

  /** The record after one key of `config`, which no later key of `config` repeats. */
  lemma MergeKeyMerged(overrides: Record, m: Merging, e: Entry, lower: string)
    requires Proper(m.merged) && Points(m.pending) && e.key != "" && Find(m.merged, Lower(e.key)).None?
    ensures Proper(MergeKey(overrides, m, e).merged)
    ensures Find(MergeKey(overrides, m, e).merged, lower)
         == if lower == Lower(e.key) then MergedEntry(lower, Some(e), Pend(overrides, m.pending, lower))
            else Find(m.merged, lower)
  {
    var key := Lower(e.key);
    var spelled := Get(m.pending, key);
    GetMember(m.pending, key);
    if spelled.None? {
      if e.value != "" { PutNew(m.merged, key, e.key, e.value, lower); }
    } else {
      var value := ValueOf(overrides, spelled.value);
      if key == SETENV {
        var joined := if value == "" then e.value else e.value + " " + value;
        LowerSetEnv();
        PutNew(m.merged, key, SET_ENV, joined, lower);
        assert e.value + "" == e.value && e.value + (" " + value) == e.value + " " + value;
      } else if value != "" {
        PutNew(m.merged, key, spelled.value, value, lower);
      }
    }
  }

  lemma MergeKeyPending(overrides: Record, m: Merging, e: Entry, lower: string)
    requires Points(m.pending)
    ensures var t := MergeKey(overrides, m, e);
            && Points(t.pending)
            && Get(t.pending, lower) == if lower == Lower(e.key) then None else Get(m.pending, lower)
  {
    GetMember(m.pending, Lower(e.key));
    RemoveGets(m.pending, Lower(e.key), lower);
  }

  lemma MergeKeyFinds(overrides: Record, m: Merging, e: Entry, lower: string)
    requires Proper(m.merged) && Points(m.pending) && e.key != "" && Find(m.merged, Lower(e.key)).None?
    ensures var t := MergeKey(overrides, m, e);
            && Proper(t.merged) && Points(t.pending)
            && Get(t.pending, lower) == (if lower == Lower(e.key) then None else Get(m.pending, lower))
            && Find(t.merged, lower)
            == if lower == Lower(e.key) then MergedEntry(lower, Some(e), Pend(overrides, m.pending, lower))
               else Find(m.merged, lower)
  {
    MergeKeyMerged(overrides, m, e, lower);
    MergeKeyPending(overrides, m, e, lower);
  }

  lemma {:induction false} MergeKeysFinds(overrides: Record, m: Merging, rest: Record, lower: string)
    requires Proper(m.merged) && Points(m.pending) && Proper(rest)
    requires forall e :: e in rest ==> Find(m.merged, Lower(e.key)).None?
    ensures var t := MergeKeys(overrides, m, rest);
            && Proper(t.merged) && Points(t.pending)
            && Get(t.pending, lower) == (if Find(rest, lower).Some? then None else Get(m.pending, lower))
            && Find(t.merged, lower)
            == if Find(rest, lower).Some? then MergedEntry(lower, Find(rest, lower), Pend(overrides, m.pending, lower))
               else Find(m.merged, lower)
    decreases |rest|
  {
    if rest != [] {
      var next := MergeKey(overrides, m, rest[0]);
      MergeKeyFinds(overrides, m, rest[0], lower);
      forall e | e in rest[1..] ensures Find(next.merged, Lower(e.key)).None? {
        MergeKeyFinds(overrides, m, rest[0], Lower(e.key));
      }
      MergeKeysFinds(overrides, next, rest[1..], lower);
      FindMember(rest[1..], Lower(rest[0].key));
    }
  }

  lemma AddPendingFinds(overrides: Record, merged: Record, p: Entry, lower: string)
    requires Proper(merged) && p.value != "" && Lower(p.value) == p.key && Find(merged, p.key).None?
    ensures Proper(AddPending(overrides, merged, p))
    ensures Find(AddPending(overrides, merged, p), lower)
         == if lower == p.key then Some(Entry(p.value, ValueOf(overrides, p.value))) else Find(merged, lower)
  {
    LowerSetEnv();
    FindMember(merged, p.key);
    GetMember(merged, SET_ENV);
    PutFinds(merged, p.value, ValueOf(overrides, p.value), lower);
    PutProper(merged, p.value, ValueOf(overrides, p.value));
  }

  lemma {:induction false} AddRestFinds(overrides: Record, merged: Record, pending: Record, lower: string)
    requires Proper(merged) && Points(pending) && forall p :: p in pending ==> Find(merged, p.key).None?
    ensures Proper(AddRest(overrides, merged, pending))
    ensures Find(AddRest(overrides, merged, pending), lower)
         == if Get(pending, lower).Some? then Pend(overrides, pending, lower) else Find(merged, lower)
    decreases |pending|
  {
    if pending != [] {
      var next := AddPending(overrides, merged, pending[0]);
      AddPendingFinds(overrides, merged, pending[0], lower);
      forall p | p in pending[1..] ensures Find(next, p.key).None? {
        AddPendingFinds(overrides, merged, pending[0], p.key);
      }
      AddRestFinds(overrides, next, pending[1..], lower);
      GetMember(pending[1..], pending[0].key);
    }
  }

  lemma {:induction false} FindLastMember(r: Record, lower: string)
    ensures FindLast(r, lower).Some? ==> FindLast(r, lower).value in r && Lower(FindLast(r, lower).value.key) == lower
  {
    if r != [] { FindLastMember(r[1..], lower); }
  }

  lemma {:induction false} MemberGets(r: Record, e: Entry)
    requires IsRecord(r) && e in r
    ensures Get(r, e.key) == Some(e.value)
  {
    if r[0] != e {
      assert e in r[1..];
      MemberGets(r[1..], e);
    }
  }

  lemma FoundValue(r: Record, lower: string)
    requires IsRecord(r) && FindLast(r, lower).Some?
    ensures ValueOf(r, FindLast(r, lower).value.key) == FindLast(r, lower).value.value
  {
    FindLastMember(r, lower);
    MemberGets(r, FindLast(r, lower).value);
  }

  /**
   * For a config without keys that differ in case only, the result is such a record too, and
   * each key's entry is determined by the config's entry for it and the last one that the
   * overrides, spelled as they may be, have for it.
   */
  lemma MergeExactly(config: Record, overrides: Record, lower: string)
    requires Proper(config) && Keyed(overrides)
    ensures Proper(Merge(config, overrides))
    ensures Find(Merge(config, overrides), lower)
         == MergedEntry(lower, Find(config, lower), FindLast(overrides, lower))
  {
    var start := Merging([], CaseIndex([], overrides));
    var m := MergeKeys(overrides, start, config);
    CaseIndexGets([], overrides, lower);
    MergeKeysFinds(overrides, start, config, lower);
    forall p | p in m.pending ensures Find(m.merged, p.key).None? {
      PendingUnmerged(overrides, start, config, p);
    }
    AddRestFinds(overrides, m.merged, m.pending, lower);
    if FindLast(overrides, lower).Some? { FoundValue(overrides, lower); }
  }

  lemma PendingUnmerged(overrides: Record, start: Merging, config: Record, p: Entry)
    requires start.merged == [] && Points(start.pending) && Proper(config)
    requires p in MergeKeys(overrides, start, config).pending
    ensures Find(MergeKeys(overrides, start, config).merged, p.key).None?
  {
    MergeKeysFinds(overrides, start, config, p.key);
    GetMember(MergeKeys(overrides, start, config).pending, p.key);
  }

  // ----- three sources -----

  lemma {:induction false} ProperFinds(r: Record, lower: string)
    requires Proper(r)
    ensures Keyed(r) && FindLast(r, lower) == Find(r, lower)
  {
    if r != [] {
      ProperFinds(r[1..], lower);
      FindMember(r[1..], lower);
    }
  }

  /** Two merges in a row, entry by entry. */
  lemma MergedTwice(deployment: Record, cli: Record, user: Record, lower: string)
    requires Proper(deployment) && Keyed(cli) && Keyed(user)
    ensures Proper(Merge(Merge(deployment, cli), user))
    ensures var d, c, u := Find(deployment, lower), FindLast(cli, lower), FindLast(user, lower);
            Find(Merge(Merge(deployment, cli), user), lower) == MergedEntry(lower, MergedEntry(lower, d, c), u)
  {
    MergeExactly(deployment, cli, lower);
    MergeExactly(Merge(deployment, cli), user, lower);
  }

  /** A non-empty value wins over everything of lower precedence: user, then CLI, then deployment. */
  lemma Precedence(deployment: Record, cli: Record, user: Record, lower: string)
    requires Proper(deployment) && Keyed(cli) && Keyed(user) && lower != SETENV
    ensures var d, c, u := Find(deployment, lower), FindLast(cli, lower), FindLast(user, lower);
            var merged := Find(Merge(Merge(deployment, cli), user), lower);
            && (u.Some? && u.value.value != "" ==> merged == u)
            && (u.None? && c.Some? && c.value.value != "" ==> merged == c)
            && (u.None? && c.None? ==> merged == if d.Some? && d.value.value != "" then d else None)
            && (u.None? && c.Some? && c.value.value == "" ==> merged == None)
            && (u.Some? && u.value.value == "" ==> merged == if Silent(d, c) then u else None)
  {
    MergedTwice(deployment, cli, user, lower);
  }

  /** What a source gives, none counting as empty. */
  function EntryValue(e: Option<Entry>): string {
    if e.Some? then e.value.value else ""
  }

  function IfAny(value: string): seq<string> {
    if value == "" then [] else [value]
  }

  /**
   * An empty `SetEnv` below a non-empty one is not skipped: its place is taken by a blank.
   * (An empty one that the next source does not mention is dropped.)
   */
  predicate LeadingBlank(d: Option<Entry>, c: Option<Entry>, u: Option<Entry>) {
    || (EntryValue(c) != "" && d.Some? && EntryValue(d) == "")
    || (EntryValue(u) != "" && c.Some? && EntryValue(c) == "" && EntryValue(d) == "")
  }

  lemma JoinOfTwo(a: string, b: string)
    ensures Join([a], " ") == a && Join([a, b], " ") == a + " " + b
  {
    assert [a, b][1..] == [b];
  }

  lemma JoinOfThree(a: string, b: string, c: string)
    ensures Join([a, b, c], " ") == a + " " + b + " " + c
  {
    assert [a, b, c][1..] == [b, c];
    JoinOfTwo(b, c);
    assert a + " " + (b + " " + c) == a + " " + b + " " + c;
  }

  lemma JoinNonEmptyValues(a: string, b: string, c: string)
    ensures Join(IfAny(a) + IfAny(b) + IfAny(c), " ") == AddValue(AddValue(a, b), c)
  {
    JoinOfTwo(a, b);
    JoinOfTwo(a, c);
    JoinOfTwo(b, c);
    JoinOfThree(a, b, c);
    var parts := IfAny(a) + IfAny(b) + IfAny(c);
    if a == "" {
      assert parts == if b == "" then IfAny(c) else if c == "" then [b] else [b, c];
    } else if b == "" {
      assert parts == if c == "" then [a] else [a, c];
    } else {
      assert parts == if c == "" then [a, b] else [a, b, c];
    }
  }

  /** Two values joined by a blank, or the one that is there. */
  function AddValue(a: string, b: string): string {
    if b == "" then a else if a == "" then b else a + " " + b
  }

  function SetEnvSum(d: Option<Entry>, c: Option<Entry>, u: Option<Entry>): string {
    AddValue(AddValue(EntryValue(d), EntryValue(c)), EntryValue(u))
  }

  lemma TwoSetEnvs(d: Option<Entry>, c: Option<Entry>)
    ensures EntryValue(MergedEntry(SETENV, d, c))
         == if d.Some? && EntryValue(d) == "" && EntryValue(c) != "" then " " + EntryValue(c)
            else AddValue(EntryValue(d), EntryValue(c))
    ensures EntryValue(MergedEntry(SETENV, d, c)) == ""
        ==> (MergedEntry(SETENV, d, c).Some? <==> c.Some?) && EntryValue(d) == "" && EntryValue(c) == ""
  {
    if d.Some? && c.Some? {
      var x, y := EntryValue(d), EntryValue(c);
      assert x + (" " + y) == x + " " + y && x + "" == x && "" + " " + y == " " + y;
    }
  }

  lemma AddAfterBlank(y: string, z: string)
    requires y != ""
    ensures AddValue(" " + y, z) == " " + AddValue(y, z)
  {
    assert " " + y + " " + z == " " + (y + " " + z);
  }

  /** The value of the merged `SetEnv`, whichever of the three sources give one. */
  lemma SetEnvValue(d: Option<Entry>, c: Option<Entry>, u: Option<Entry>)
    ensures EntryValue(MergedEntry(SETENV, MergedEntry(SETENV, d, c), u))
         == if LeadingBlank(d, c, u) then " " + SetEnvSum(d, c, u) else SetEnvSum(d, c, u)
  {
    TwoSetEnvs(d, c);
    TwoSetEnvs(MergedEntry(SETENV, d, c), u);
    if EntryValue(c) != "" { AddAfterBlank(EntryValue(c), EntryValue(u)); }
  }

  /**
   * `SetEnv` values of all sources add up, lowest precedence first, joined by blanks; the
   * empty ones leave no trace if and only if none of them stands below a non-empty one.
   */
  lemma SetEnvAddsUpExactly(deployment: Record, cli: Record, user: Record)
    requires Proper(deployment) && Keyed(cli) && Keyed(user)
    ensures var d, c, u := Find(deployment, SETENV), FindLast(cli, SETENV), FindLast(user, SETENV);
            var sum := Join(IfAny(EntryValue(d)) + IfAny(EntryValue(c)) + IfAny(EntryValue(u)), " ");
            var merged := EntryValue(Find(Merge(Merge(deployment, cli), user), SETENV));
            && (merged == sum <==> !LeadingBlank(d, c, u))
            && (LeadingBlank(d, c, u) ==> merged == " " + sum)
  {
    var d, c, u := Find(deployment, SETENV), FindLast(cli, SETENV), FindLast(user, SETENV);
    MergedTwice(deployment, cli, user, SETENV);
    SetEnvValue(d, c, u);
    JoinNonEmptyValues(EntryValue(d), EntryValue(c), EntryValue(u));
    assert |" " + SetEnvSum(d, c, u)| != |SetEnvSum(d, c, u)|;
  }

  /** Neither source has a say on the key: what one gives is empty and the other adds nothing. */
  predicate Silent(deployment: Option<Entry>, cli: Option<Entry>) {
    if deployment.None? then cli.None?
    else if cli.None? then deployment.value.value == ""
    else cli.value.value == ""
  }

  /**
   * A user removes a default by giving its key an empty value. That works if and only if the
   * deployment and the CLI are silent on the key; otherwise the default comes back.
   */
  lemma EmptyUserValueRemovesExactly(defaults: Record, deployment: Record, cli: Record, user: Record, lower: string)
    requires Proper(defaults) && Proper(deployment) && Keyed(cli) && Keyed(user) && lower != SETENV
    requires Find(defaults, lower).Some? && Find(defaults, lower).value.value != ""
    requires FindLast(user, lower).Some? && FindLast(user, lower).value.value == ""
    ensures Find(Merge(defaults, Merge(Merge(deployment, cli), user)), lower)
         == if Silent(Find(deployment, lower), FindLast(cli, lower)) then None else Find(defaults, lower)
  {
    var overrides := Merge(Merge(deployment, cli), user);
    MergedTwice(deployment, cli, user, lower);
    ProperFinds(overrides, lower);
    MergeExactly(defaults, overrides, lower);
  }

  /** The user clears LogLevel, which the deployment sets too: the default is back. */
  lemma DefaultComesBack()
    ensures var defaults, deployment, user := [Entry("LogLevel", "ERROR")], [Entry("LogLevel", "INFO")], [Entry("LogLevel", "")];
            Find(Merge(defaults, Merge(Merge(deployment, []), user)), Lower("LogLevel")) == Some(Entry("LogLevel", "ERROR"))
  {
    var key := "LogLevel";
    var lower := Lower(key);
    NotSetEnv(key);
    CameBack(key, "ERROR", "INFO");
  }

  lemma NotSetEnv(key: string)
    requires |key| > 0 && key[0] == 'L'
    ensures Lower(key) != SETENV
  {
    assert Lower(key)[0] == 'l' && SETENV[0] == 's';
  }

  lemma CameBack(key: string, value: string, given: string)
    requires key != "" && value != "" && given != "" && Lower(key) != SETENV
    ensures Find(Merge([Entry(key, value)], Merge(Merge([Entry(key, given)], []), [Entry(key, "")])), Lower(key))
         == Some(Entry(key, value))
  {
    var lower := Lower(key);
    assert Find([Entry(key, value)], lower) == Some(Entry(key, value));
    assert Find([Entry(key, given)], lower) == Some(Entry(key, given));
    assert FindLast([Entry(key, "")], lower) == Some(Entry(key, ""));
    EmptyUserValueRemovesExactly([Entry(key, value)], [Entry(key, given)], [], [Entry(key, "")], lower);
  }

  // ----- parsing options -----

  predicate IsKeyChar(c: char) {
    'a' <= c <= 'z' || 'A' <= c <= 'Z' || '0' <= c <= '9' || c == '-'
  }

  predicate IsKey(s: string) {
    s != "" && forall i :: 0 <= i < |s| ==> IsKeyChar(s[i])
  }

  /** The length of the key the line begins with. */
  function KeyLength(line: string): (n: nat)
    ensures n <= |line| && forall i :: 0 <= i < n ==> IsKeyChar(line[i])
    ensures n < |line| ==> !IsKeyChar(line[n])
  {
    if line == "" || !IsKeyChar(line[0]) then 0 else 1 + KeyLength(line[1..])
  }

  /** One line, `Key value` or `Key=value`; `None` when malformed. */
  function ParseOption(line: string): Option<Entry> {
    var n := KeyLength(line);
    if n == 0 || n == |line| || !(line[n] == '=' || line[n] == ' ') then None
    else Some(Entry(line[..n], line[n + 1..]))
  }

  lemma KeyLengthIs(key: string, rest: string)
    requires IsKey(key) && (rest == "" || !IsKeyChar(rest[0]))
    ensures KeyLength(key + rest) == |key|
  {
    var line := key + rest;
    assert forall k :: 0 <= k < |key| ==> line[k] == key[k];
    assert rest != "" ==> line[|key|] == rest[0];
  }

  lemma JoinedParses(key: string, separator: char, value: string)
    requires IsKey(key) && (separator == '=' || separator == ' ')
    ensures ParseOption(key + [separator] + value) == Some(Entry(key, value))
  {
    var line := key + [separator] + value;
    KeyLengthIs(key, [separator] + value);
    assert line == key + ([separator] + value);
    assert line[..|key|] == key && line[|key| + 1..] == value;
  }

  /** A line parses to a key and a value exactly if it is the two joined by a blank or `=`. */
  lemma ParseOptionExactly(line: string, e: Entry)
    ensures ParseOption(line) == Some(e)
       <==> IsKey(e.key) && (line == e.key + "=" + e.value || line == e.key + " " + e.value)
  {
    if IsKey(e.key) {
      JoinedParses(e.key, '=', e.value);
      JoinedParses(e.key, ' ', e.value);
    }
    var n := KeyLength(line);
    if n < |line| {
      assert line == line[..n] + [line[n]] + line[n + 1..];
    }
  }

  /** One step of the reduction over the lines. */
  function AddOption(acc: Record, line: string): Record {
    var option := ParseOption(line);
    if option.None? then acc
    else if Lower(option.value.key) != SETENV then Put(acc, option.value.key, option.value.value)
    else if option.value.value == "" then acc
    else
      var existing := ValueOf(acc, SET_ENV);
      Put(acc, SET_ENV, if existing != "" then existing + " " + option.value.value else option.value.value)
  }

  function ParsedOptions(lines: seq<string>): Record {
    if lines == [] then [] else AddOption(ParsedOptions(lines[..|lines| - 1]), lines[|lines| - 1])
  }

  method ParseSshConfig(lines: seq<string>) returns (acc: Record)
    ensures acc == ParsedOptions(lines)
  {
    acc := [];
    for i := 0 to |lines|
      invariant acc == ParsedOptions(lines[..i])
    {
      assert lines[..i + 1][..i] == lines[..i];
      acc := ParseSshLine(acc, lines[i]);
    }
    assert lines[..|lines|] == lines;
  }

  /** The body of the reduction. */
  method ParseSshLine(acc: Record, line: string) returns (acc': Record)
    ensures acc' == AddOption(acc, line)
  {
    acc' := acc;
    var option := ParseOption(line);
    if option.None? { return; }
    var key, value := option.value.key, option.value.value;
    if Lower(key) == SETENV {
      if value == "" { return; }
      var existing := ValueOf(acc, SET_ENV);
      acc' := Put(acc, SET_ENV, if existing != "" then existing + " " + value else value);
    } else {
      acc' := Put(acc, key, value);
    }
  }

  /** One more line, and the values given to a key; for `SetEnv`, however spelled, the non-empty ones. */
  function GivenNext(before: seq<string>, line: string, key: string): seq<string> {
    var option := ParseOption(line);
    if option.None? then before
    else if key == SET_ENV && Lower(option.value.key) == SETENV && option.value.value != ""
    then before + [option.value.value]
    else if Lower(key) != SETENV && option.value.key == key then before + [option.value.value]
    else before
  }

  /** The values the lines give to a key, in order. */
  function Given(lines: seq<string>, key: string): seq<string> {
    if lines == [] then [] else GivenNext(Given(lines[..|lines| - 1], key), lines[|lines| - 1], key)
  }

  lemma {:induction false} GivenSetEnv(lines: seq<string>)
    ensures forall i :: 0 <= i < |Given(lines, SET_ENV)| ==> Given(lines, SET_ENV)[i] != ""
    decreases |lines|
  {
    LowerSetEnv();
    if lines != [] { GivenSetEnv(lines[..|lines| - 1]); }
  }

  lemma JoinSnoc(parts: seq<string>, last: string)
    requires parts != []
    ensures Join(parts + [last], " ") == Join(parts, " ") + " " + last
  {
    JoinAppend(parts, [last], " ");
  }

  lemma {:induction false} JoinNonEmpty(parts: seq<string>)
    requires parts != [] && parts[0] != ""
    ensures Join(parts, " ") != ""
  {
  }

  /** What the lines make of a key: the last value given, or for `SetEnv` all of them joined. */
  function Summed(given: seq<string>, key: string): Option<string> {
    if given == [] then None
    else if key == SET_ENV then Some(Join(given, " "))
    else Some(given[|given| - 1])
  }

  lemma SetEnvSums(before: seq<string>, value: string)
    requires value != "" && forall i :: 0 <= i < |before| ==> before[i] != ""
    ensures var existing := if before == [] then "" else Join(before, " ");
            Join(before + [value], " ") == if existing != "" then existing + " " + value else value
  {
    if before == [] {
      assert before + [value] == [value];
    } else {
      JoinSnoc(before, value);
      JoinNonEmpty(before);
    }
  }

  lemma OptionAdds(acc: Record, line: string, key: string, before: seq<string>)
    requires Lower(key) != SETENV || key == SET_ENV
    requires Get(acc, key) == Summed(before, key)
    requires key == SET_ENV ==> forall i :: 0 <= i < |before| ==> before[i] != ""
    ensures Get(AddOption(acc, line), key) == Summed(GivenNext(before, line, key), key)
  {
    var option := ParseOption(line);
    LowerSetEnv();
    if option.Some? {
      var value := option.value.value;
      if Lower(option.value.key) == SETENV {
        var existing := ValueOf(acc, SET_ENV);
        PutGets(acc, SET_ENV, if existing != "" then existing + " " + value else value, key);
        if key == SET_ENV && value != "" { SetEnvSums(before, value); }
      } else {
        PutGets(acc, option.value.key, value, key);
      }
    }
  }

  /** The last value given to a key counts; the values of `SetEnv` add up, joined by blanks. */
  lemma {:induction false} OptionsExactly(lines: seq<string>, key: string)
    requires Lower(key) != SETENV || key == SET_ENV
    ensures Get(ParsedOptions(lines), key) == Summed(Given(lines, key), key)
    decreases |lines|
  {
    if lines != [] {
      var n := |lines| - 1;
      OptionsExactly(lines[..n], key);
      GivenSetEnv(lines[..n]);
      OptionAdds(ParsedOptions(lines[..n]), lines[n], key, Given(lines[..n], key));
    }
  }
}
