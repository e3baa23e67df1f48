/** Preferences: a TAB-separated text file that behaves as a map. */
module Prefs {
  import opened Wrappers

  const BUFFER: nat := 8192
  const VALUE_MAX: nat := 1023

  /** The length of the first line. */
  function Eol(t: string): (n: nat)
    ensures n <= |t| && (n < |t| ==> t[n] == '\n') && forall i :: 0 <= i < n ==> t[i] != '\n'
  {
    if t == "" || t[0] == '\n' then 0 else 1 + Eol(t[1..])
  }

  /** The place of the first TAB of a line, or its length. */
  function Tab(line: string): (n: nat)
    ensures n <= |line| && (n < |line| ==> line[n] == '\t') && forall i :: 0 <= i < n ==> line[i] != '\t'
  {
    if line == "" || line[0] == '\t' then 0 else 1 + Tab(line[1..])
  }

  function Line(t: string): string { t[..Eol(t)] }

  function Ended(line: string): string { line + "\n" }

  /** What follows the first line. */
  function Rest(t: string): string { if Eol(t) < |t| then t[Eol(t) + 1..] else "" }

  predicate IsFor(line: string, key: string)
  {
    Tab(line) < |line| && line[..Tab(line)] == key
  }

  /** The value of a key: that of the first line for it. */
  function Lookup(t: string, key: string): Option<string>
    decreases |t|
  {
    if t == "" then None
    else if IsFor(Line(t), key) then Some(Line(t)[Tab(Line(t)) + 1..])
    else Lookup(Rest(t), key)
  }

  /** Every line but those for a key and the empty ones, each ended by a newline, as long as they fit
      a buffer that already holds `len` characters. */
  function Others(t: string, key: string, len: nat): string
    decreases |t|, 1
  {
    if t == "" then "" else OthersOf(Line(t), Rest(t), key, len)
  }

  function OthersOf(line: string, rest: string, key: string, len: nat): string
    decreases |rest|, 2
  {
    if !IsFor(line, key) && line != "" && len + |line| + 1 < BUFFER
    then Ended(line) + Others(rest, key, len + |line| + 1)
    else Others(rest, key, len)
  }

  function Entry(key: string, value: string): string { key + "\t" + value + "\n" }

  /** The file after a store; a new entry that does not fit is left out. */
  function Stored(t: string, key: string, value: Option<string>): string
  {
    var kept := Others(t, key, 0);
    if value.None? || |kept| + |Entry(key, value.value)| >= BUFFER then kept else kept + Entry(key, value.value)
  }

  /** A reader's copy of a value. */
  function Clipped(value: string): string { if |value| > VALUE_MAX then value[..VALUE_MAX] else value }

  /** Text made of whole lines. */
  predicate Whole(t: string) { t == "" || t[|t| - 1] == '\n' }

  /** Keys and values a line can hold. */
  predicate Key(key: string) { '\t' !in key && '\n' !in key }

  predicate Value(value: string) { '\n' !in value }

  // ---------------------------------------------------------------- lines

  lemma LineOf(line: string, t: string)
    requires '\n' !in line
    ensures Line(Ended(line) + t) == line && Rest(Ended(line) + t) == t
  {
    var all := Ended(line) + t;
    assert all[|line|] == '\n';
    assert forall i :: 0 <= i < |line| ==> all[i] == line[i];
    assert Eol(all) == |line|;
  }

  lemma RestWhole(t: string)
    requires t != "" && Whole(t)
    ensures t == Ended(Line(t)) + Rest(t) && Whole(Rest(t)) && '\n' !in Line(t)
  {
  }

  lemma LookupLine(line: string, t: string, key: string)
    requires '\n' !in line
    ensures Lookup(Ended(line) + t, key) == if IsFor(line, key) then Some(line[Tab(line) + 1..]) else Lookup(t, key)
  {
    LineOf(line, t);
  }

  lemma Associative(a: string, b: string, c: string)
    ensures a + b + c == a + (b + c)
  {
  }

  /** In whole lines followed by more, the first match wins. */
  lemma {:induction false} LookupJoin(t: string, u: string, key: string)
    requires Whole(t)
    ensures Lookup(t + u, key) == if Lookup(t, key).Some? then Lookup(t, key) else Lookup(u, key)
    decreases |t|
  {
    if t == "" {
      assert t + u == u;
    } else {
      hide *;
      var line, rest := Line(t), Rest(t);
      RestWhole(t);
      LookupLine(line, rest, key);
      LookupLine(line, rest + u, key);
      Associative(Ended(line), rest, u);
      LookupJoin(rest, u, key);
    }
  }

  lemma OthersStep(t: string, key: string, len: nat)
    requires t != ""
    ensures Others(t, key, len) == OthersOf(Line(t), Rest(t), key, len)
    ensures |Rest(t)| < |t|
  {
  }

  /** One line more is kept, or left out. */
  lemma KeepLine(t: string, key: string, buf: string)
    requires t != ""
    ensures var line := Line(t);
            var more := if !IsFor(line, key) && line != "" && |buf| + |line| + 1 < BUFFER then buf + Ended(line) else buf;
            buf + Others(t, key, |buf|) == more + Others(Rest(t), key, |more|) && |Rest(t)| < |t|
  {
    OthersStep(t, key, |buf|);
    var line := Line(t);
    assert |Ended(line)| == |line| + 1;
    hide *;
    KeepLineOf(line, Rest(t), key, buf);
  }

  lemma KeepLineOf(line: string, rest: string, key: string, buf: string)
    requires |Ended(line)| == |line| + 1
    ensures var more := if !IsFor(line, key) && line != "" && |buf| + |line| + 1 < BUFFER then buf + Ended(line) else buf;
            buf + OthersOf(line, rest, key, |buf|) == more + Others(rest, key, |more|)
  {
    hide Others;
    hide IsFor;
    hide Ended;
    Associative(buf, Ended(line), Others(rest, key, |buf| + |line| + 1));
  }

  lemma {:induction false} OthersWhole(t: string, key: string, len: nat)
    ensures Whole(Others(t, key, len))
    ensures len < BUFFER ==> len + |Others(t, key, len)| < BUFFER
    decreases |t|
  {
    if t != "" {
      OthersStep(t, key, len);
      OthersWhole(Rest(t), key, len + |Line(t)| + 1);
      OthersWhole(Rest(t), key, len);
      hide Others;
      EndedWhole(Line(t), Others(Rest(t), key, len + |Line(t)| + 1));
    }
  }

  lemma EndedWhole(line: string, t: string)
    requires Whole(t)
    ensures Whole(Ended(line) + t) && |Ended(line) + t| == |line| + 1 + |t| && |Ended(line)| == |line| + 1
  {
  }

  /** The file's lines are a key, a TAB and a value. */
  lemma LineReads(key: string, value: string, rest: string, other: string)
    requires '\t' !in key && '\n' !in key && '\n' !in value
    ensures Lookup(key + "\t" + value + "\n" + rest, other) == if other == key then Some(value) else Lookup(rest, other)
  {
    var line := key + "\t" + value;
    var t := key + "\t" + value + "\n" + rest;
    assert forall i :: 0 <= i < |line| ==> t[i] == line[i] && line[i] != '\n';
    assert t[|line|] == '\n' && Eol(t) == |line| && Line(t) == line && Rest(t) == rest;
    assert forall i :: 0 <= i < |key| ==> line[i] == key[i] && line[i] != '\t';
    assert line[|key|] == '\t' && Tab(line) == |key|;
    assert line[..|key|] == key && line[|key| + 1..] == value;
    hide Eol;
    hide Tab;
  }

  /** Dropping the lines for a key leaves every other key alone, when all the other lines fit. */
  lemma {:induction false} OthersLookup(t: string, key: string, len: nat, other: string)
    requires Whole(t) && len + |t| < BUFFER
    ensures Lookup(Others(t, key, len), other) == if other == key then None else Lookup(t, other)
    decreases |t|, 1
  {
    if t != "" {
      hide *;
      RestWhole(t);
      EndedWhole(Line(t), Rest(t));
      OthersStep(t, key, len);
      OthersLookupLine(Line(t), Rest(t), key, len, other);
    }
  }

  lemma {:induction false} OthersLookupLine(line: string, rest: string, key: string, len: nat, other: string)
    requires '\n' !in line && Whole(rest) && len + |line| + 1 + |rest| < BUFFER
    ensures Lookup(OthersOf(line, rest, key, len), other) == if other == key then None else Lookup(Ended(line) + rest, other)
    decreases |line| + 1 + |rest|, 0
  {
    hide Others;
    hide Lookup;
    hide IsFor;
    hide Ended;
    LookupLine(line, rest, other);
    if !IsFor(line, key) && line != "" {
      OthersLookup(rest, key, len + |line| + 1, other);
      LookupLine(line, Others(rest, key, len + |line| + 1), other);
    } else {
      OthersLookup(rest, key, len, other);
      IsForOne(line, key, other);
    }
  }

  /** A line is for one key at most, and an empty one for none. */
  lemma IsForOne(line: string, key: string, other: string)
    ensures IsFor(line, key) && IsFor(line, other) ==> key == other
    ensures line == "" ==> !IsFor(line, other)
  {
  }

  lemma LookupEntry(key: string, value: string, other: string)
    requires Key(key) && Value(value)
    ensures Lookup(Entry(key, value), other) == if other == key then Some(value) else None
  {
    var line := key + "\t" + value;
    assert Entry(key, value) == Ended(line) + "";
    LineOf(line, "");
    assert line[|key|] == '\t' && forall i :: 0 <= i < |key| ==> line[i] == key[i];
    assert Tab(line) == |key|;
    assert line[..|key|] == key && line[|key| + 1..] == value;
  }

  // ---------------------------------------------------------------- the map

  /** A file this code can have written. */
  predicate Written(t: string) { Whole(t) && |t| < BUFFER }

  lemma StoredWritten(t: string, key: string, value: Option<string>)
    requires value.Some? ==> Value(value.value)
    ensures Written(Stored(t, key, value))
  {
    OthersWhole(t, key, 0);
  }

  predicate Fits(t: string, key: string, value: string)
  {
    |Others(t, key, 0)| + |key| + |value| + 2 < BUFFER
  }

  /** After a store every other key reads as before, the key reads as the new value exactly when the
      new entry fits, and a removed key reads as nothing. */
  lemma StoreThenFind(t: string, key: string, value: Option<string>, other: string)
    requires Written(t) && Key(key) && (value.Some? ==> Value(value.value))
    ensures var r := Stored(t, key, value);
            && (other != key ==> Lookup(r, other) == Lookup(t, other))
            && (value == None ==> Lookup(r, key) == None)
            && (value.Some? ==> (Lookup(r, key) == value <==> Fits(t, key, value.value)))
            && (value.Some? && !Fits(t, key, value.value) ==> Lookup(r, key) == None)
  {
    var kept := Others(t, key, 0);
    OthersWhole(t, key, 0);
    OthersLookup(t, key, 0, other);
    OthersLookup(t, key, 0, key);
    if value.Some? {
      assert |Entry(key, value.value)| == |key| + |value.value| + 2;
      LookupJoin(kept, Entry(key, value.value), other);
      LookupJoin(kept, Entry(key, value.value), key);
      LookupEntry(key, value.value, other);
      LookupEntry(key, value.value, key);
    }
  }

  datatype Op = Set(key: string, value: string) | Remove(key: string)
  {
    function New(): Option<string> { if Set? then Some(value) else None }

    predicate Valid() { Key(key) && (Set? ==> Value(value)) }
  }

  /** The file holds a map. */
  ghost predicate Holds(t: string, m: map<string, string>)
  {
    forall k: string :: Lookup(t, k) == if k in m then Some(m[k]) else None
  }

  function Applied(m: map<string, string>, op: Op): map<string, string>
  {
    if op.Set? then m[op.key := op.value] else m - {op.key}
  }

  function FileAfter(t: string, ops: seq<Op>): string
    decreases |ops|
  {
    if ops == [] then t else FileAfter(Stored(t, ops[0].key, ops[0].New()), ops[1..])
  }

  function MapAfter(m: map<string, string>, ops: seq<Op>): map<string, string>
    decreases |ops|
  {
    if ops == [] then m else MapAfter(Applied(m, ops[0]), ops[1..])
  }

  /** Every entry set by the operations fits when it is set. */
  predicate AllFit(t: string, ops: seq<Op>)
    decreases |ops|
  {
    ops != [] ==>
      (ops[0].Set? ==> Fits(t, ops[0].key, ops[0].value)) && AllFit(Stored(t, ops[0].key, ops[0].New()), ops[1..])
  }

  /** Any sequence of operations does to the file what it does to a map. */
  lemma {:induction false} FileIsAMap(t: string, m: map<string, string>, ops: seq<Op>)
    requires Written(t) && Holds(t, m) && (forall op <- ops :: op.Valid()) && AllFit(t, ops)
    ensures Holds(FileAfter(t, ops), MapAfter(m, ops))
    decreases |ops|
  {
    if ops != [] {
      var op := ops[0];
      assert op in ops && forall o <- ops[1..] :: o in ops;
      var r := Stored(t, op.key, op.New());
      StoredWritten(t, op.key, op.New());
      forall k: string
        ensures Lookup(r, k) == if k in Applied(m, op) then Some(Applied(m, op)[k]) else None
      {
        StoreThenFind(t, op.key, op.New(), k);
      }
      FileIsAMap(r, Applied(m, op), ops[1..]);
    }
  }

  lemma EmptyFileIsAMap()
    ensures Written("") && Holds("", map[])
  {
  }

  // ---------------------------------------------------------------- the file

  class Store {
    /** The contents of the preferences file. */
    var file: string

    constructor ()
      ensures file == ""
    {
      file := "";
    }

    /** Scan the file line by line for a key. */
    method Find(key: string) returns (found: Option<string>)
      ensures found == if Lookup(file, key).Some? then Some(Clipped(Lookup(file, key).value)) else None
    {
      var p := file;
      while p != ""
        invariant Lookup(file, key) == Lookup(p, key)
        decreases |p|
      {
        var line := Line(p);
        var tab := Tab(line);
        if tab < |line| && tab == |key| && line[..tab] == key {
          var v := line[tab + 1..];
          return Some(if |v| > VALUE_MAX then v[..VALUE_MAX] else v);
        }
        p := Rest(p);
      }
      return None;
    }

    /** Copy every line but those for a key into a buffer, as long as they fit. */
    method KeepOthers(key: string) returns (buf: string)
      ensures buf == Others(file, key, 0)
    {
      var p := file;
      buf := "";
      while p != ""
        invariant Others(file, key, 0) == buf + Others(p, key, |buf|)
        decreases |p|
      {
        hide Others;
        hide IsFor;
        hide Ended;
        hide Line;
        hide Rest;
        KeepLine(p, key, buf);
        var line := Line(p);
        if !IsFor(line, key) && line != "" && |buf| + |line| + 1 < BUFFER {
          buf := buf + Ended(line);
        }
        p := Rest(p);
      }
    }

    /** Rewrite the file with a key set or removed. */
    method Rewrite(key: string, value: Option<string>)
      modifies this
      ensures file == Stored(old(file), key, value)
    {
      var buf := KeepOthers(key);
      if value.Some? && |Entry(key, value.value)| < BUFFER - |buf| {
        buf := buf + Entry(key, value.value);
      }
      file := buf;
    }
  }

  /** A stored value reads back exactly when it is shorter than the reader's buffer. */
  lemma ReadsBack(value: string)
    ensures Clipped(value) == value <==> |value| < 1024
  {
  }
}
