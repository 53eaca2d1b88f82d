/** The option handling of the command-line tool in debounce.js: filling in defaults
    (debounce.js:335-340), turning hyphenated option names into camelCase
    (debounce.js:358-371) and re-keying the options with it (debounce.js:346-356). */
module Cli {
  import opened Events

  // ---------------------------------------------------------------- camelCase

  /** `toUpperCase` on one character, for the ASCII letters. */
  function ToUpper(c: char): (r: char)
    ensures 'a' <= c <= 'z' ==> 'A' <= r <= 'Z' && r as int == c as int - 32
    ensures !('a' <= c <= 'z') ==> r == c
    ensures r == '-' <==> c == '-'
  {
    if 'a' <= c <= 'z' then (c as int - 32) as char else c
  }

  /** How many times `c` occurs in `s`. */
  function Count(s: string, c: char): nat
    ensures Count(s, c) <= |s|
    ensures Count(s, c) == 0 <==> c !in s
  {
    if s == [] then 0 else (if s[0] == c then 1 else 0) + Count(s[1..], c)
  }

  /** The parts joined with `sep` in between. */
  function Join(parts: seq<string>, sep: char): string
    decreases |parts|
  {
    if |parts| <= 1 then (if parts == [] then "" else parts[0])
    else parts[0] + [sep] + Join(parts[1..], sep)
  }

  /** The parts one after the other. */
  function Concat(parts: seq<string>): string
    decreases |parts|
  {
    if parts == [] then "" else parts[0] + Concat(parts[1..])
  }

  /** `s.split(sep)` for a one-character separator: the maximal runs between the
      separators, empty runs included, and always at least one part. */
  function Split(s: string, sep: char): (parts: seq<string>)
    ensures |parts| >= 1
    ensures forall i :: 0 <= i < |parts| ==> sep !in parts[i]
    ensures sep !in s ==> parts == [s]
    decreases |s|
  {
    if s == [] then [""]
    else
      var rest := Split(s[1..], sep);
      if s[0] == sep then [""] + rest
      else
        assert sep !in s ==> sep !in s[1..] && [s[0]] + s[1..] == s;
        [[s[0]] + rest[0]] + rest[1..]
  }

  /** One part more than there are separators, and together the parts hold every
      character that is not a separator. */
  lemma {:induction false} SplitCount(s: string, sep: char)
    ensures |Split(s, sep)| == Count(s, sep) + 1
    ensures |Concat(Split(s, sep))| == |s| - Count(s, sep)
    decreases |s|
  {
    if s != [] {
      SplitCount(s[1..], sep);
      var rest := Split(s[1..], sep);
      if s[0] != sep {
        assert Concat(rest) == rest[0] + Concat(rest[1..]);
        assert Concat(Split(s, sep)) == [s[0]] + rest[0] + Concat(rest[1..]);
      }
    }
  }

  /** Putting a character in front of the first part puts it in front of the join. */
  lemma JoinConsHead(c: char, parts: seq<string>, sep: char)
    requires |parts| >= 1
    ensures Join([[c] + parts[0]] + parts[1..], sep) == [c] + Join(parts, sep)
  {
    var q := [[c] + parts[0]] + parts[1..];
    if |parts| > 1 {
      assert q[1..] == parts[1..];
    }
  }

  /** An empty first part puts a separator in front of the join. */
  lemma JoinConsEmpty(parts: seq<string>, sep: char)
    requires |parts| >= 1
    ensures Join([""] + parts, sep) == [sep] + Join(parts, sep)
  {
    assert ([""] + parts)[1..] == parts;
  }

  /** Joining the parts with the separator gives the string back. */
  lemma {:induction false} SplitJoin(s: string, sep: char)
    ensures Join(Split(s, sep), sep) == s
    decreases |s|
  {
    if s != [] {
      SplitJoin(s[1..], sep);
      var rest := Split(s[1..], sep);
      if s[0] == sep {
        JoinConsEmpty(rest, sep);
      } else {
        JoinConsHead(s[0], rest, sep);
      }
      assert s == [s[0]] + s[1..];
    }
  }

  /** The other direction of the round trip: splitting joined parts that do not
      contain the separator gives the parts back. */
  lemma {:induction false} JoinSplit(parts: seq<string>, sep: char)
    requires |parts| >= 1
    requires forall i :: 0 <= i < |parts| ==> sep !in parts[i]
    ensures Split(Join(parts, sep), sep) == parts
    decreases |parts|, |parts[0]|, 1
  {
    if |parts| == 1 {
      assert Join(parts, sep) == parts[0];
    } else if parts[0] == "" {
      var tail := Join(parts[1..], sep);
      assert Join(parts, sep) == [sep] + tail;
      JoinSplit(parts[1..], sep);
      assert ([sep] + tail)[1..] == tail;
      assert Split([sep] + tail, sep) == [""] + Split(tail, sep);
      assert [""] + parts[1..] == parts;
    } else {
      JoinSplitCons(parts, sep);
    }
  }

  lemma {:induction false} JoinSplitCons(parts: seq<string>, sep: char)
    requires |parts| >= 2 && parts[0] != ""
    requires forall i :: 0 <= i < |parts| ==> sep !in parts[i]
    ensures Split(Join(parts, sep), sep) == parts
    decreases |parts|, |parts[0]|, 0
  {
    var p0 := parts[0];
    var shorter := [p0[1..]] + parts[1..];
    assert sep !in p0[1..] by { assert forall c :: c in p0[1..] ==> c in p0; }
    assert forall i :: 1 <= i < |shorter| ==> shorter[i] == parts[i];
    JoinSplit(shorter, sep);
    var js := Join(shorter, sep);
    assert shorter[1..] == parts[1..];
    assert Join(parts, sep) == [p0[0]] + js by {
      assert [p0[0]] + p0[1..] == p0;
      if |shorter| == 1 { } else {
        assert Join(shorter, sep) == p0[1..] + [sep] + Join(parts[1..], sep);
      }
    }
    assert ([p0[0]] + js)[1..] == js;
    assert p0[0] != sep;
    var rest := Split(js, sep);
    assert Split([p0[0]] + js, sep) == [[p0[0]] + rest[0]] + rest[1..];
    assert [p0[0]] + p0[1..] == p0;
  }

  /** The map callback of `camelCase`: first character upper-cased, the rest kept, and
      the empty part left empty. */
  function Capitalize(part: string): (r: string)
    ensures |r| == |part|
    ensures |part| > 0 ==> r[0] == ToUpper(part[0]) && r[1..] == part[1..]
    ensures '-' in r <==> '-' in part
  {
    if |part| == 0 then "" else [ToUpper(part[0])] + part[1..]
  }

  /** The parts, each capitalized, joined with nothing in between. */
  function CapitalizedConcat(parts: seq<string>): (r: string)
    ensures |r| == |Concat(parts)|
    ensures (forall i :: 0 <= i < |parts| ==> '-' !in parts[i]) ==> '-' !in r
    decreases |parts|
  {
    if parts == [] then "" else Capitalize(parts[0]) + CapitalizedConcat(parts[1..])
  }

  /** `camelCase(str)`: unchanged without '-'; otherwise the first '-'-separated segment
      followed by every later segment with its first character upper-cased. */
  function CamelCase(s: string): (r: string)
    ensures '-' !in s ==> r == s
    ensures '-' !in r
  {
    if '-' !in s then s
    else
      var parts := Split(s, '-');
      parts[0] + CapitalizedConcat(parts[1..])
  }

  /** Each '-' is dropped and every other character kept, so the length shrinks by
      exactly the number of '-'; the text before the first '-' stays in front. */
  lemma CamelCaseShape(s: string)
    ensures |CamelCase(s)| == |s| - Count(s, '-')
    ensures Split(s, '-')[0] <= CamelCase(s)
  {
    if '-' in s {
      var parts := Split(s, '-');
      SplitCount(s, '-');
      assert Concat(parts) == parts[0] + Concat(parts[1..]);
    }
  }

  /** The output has no '-' left, so a second application changes nothing. */
  lemma CamelCaseIdempotent(s: string)
    ensures CamelCase(CamelCase(s)) == CamelCase(s)
  {
  }

  /** A name in camelCase already is its own camelCase form. */
  lemma CamelCaseOfCamel(s: string)
    requires '-' !in s
    ensures CamelCase(s) == s && Count(s, '-') == 0
  {
  }

  // ------------------------------------------------------------- option objects

  /** A plain JavaScript object of option values: its own keys in insertion order and
      the value under each key. */
  datatype Props = Props(keys: seq<string>, values: map<string, Value>)

  /** The keys are distinct and are exactly the keys that have a value. */
  ghost predicate Wf(p: Props) {
    && (forall i, j :: 0 <= i < j < |p.keys| ==> p.keys[i] != p.keys[j])
    && (forall k :: k in p.values <==> k in p.keys)
  }

  const Empty := Props([], map[])

  /** `o[k] = v`: an existing key keeps its position, a new one goes last. */
  function Set(p: Props, k: string, v: Value): (r: Props)
    requires Wf(p)
    ensures Wf(r)
    ensures r.values == p.values[k := v]
    ensures k in p.values ==> r.keys == p.keys
    ensures k !in p.values ==> r.keys == p.keys + [k]
  {
    if k in p.values then p.(values := p.values[k := v]) else Props(p.keys + [k], p.values[k := v])
  }

  /** `this.defaults` of the tool (debounce.js:203-205). */
  function Defaults(): (d: Props)
    ensures Wf(d) && d.keys == ["latency"]
    ensures "latency" in d.values && d.values["latency"] == Num(1500)
  {
    Props(["latency"], map["latency" := Num(1500)])
  }

  // ------------------------------------------------------------------ defaults

  /** The keys of `ks` that `m` has no value for, in order. */
  function Absent(ks: seq<string>, m: map<string, Value>): (r: seq<string>)
    ensures forall k :: k in r <==> k in ks && k !in m
    decreases |ks|
  {
    if ks == [] then []
    else Absent(ks[..|ks| - 1], m) + (if ks[|ks| - 1] in m then [] else [ks[|ks| - 1]])
  }

  /** The options after the loop has looked at the defaults under `ks`, in order: a
      key the options lack gets the default value, any other key is left alone. */
  function Filled(opts: Props, ks: seq<string>, defaults: map<string, Value>): (r: Props)
    requires Wf(opts)
    requires forall i :: 0 <= i < |ks| ==> ks[i] in defaults
    ensures Wf(r)
    decreases |ks|
  {
    if ks == [] then opts
    else
      var r := Filled(opts, ks[..|ks| - 1], defaults);
      var k := ks[|ks| - 1];
      if k in r.values then r else Set(r, k, defaults[k])
  }

  /** Filling keeps every key the options have and adds exactly the default keys. */
  lemma {:induction false} FilledDomain(opts: Props, ks: seq<string>, defaults: map<string, Value>)
    requires Wf(opts)
    requires forall i :: 0 <= i < |ks| ==> ks[i] in defaults
    ensures forall k :: k in Filled(opts, ks, defaults).values <==> k in opts.values || k in ks
    decreases |ks|
  {
    if ks != [] {
      FilledDomain(opts, ks[..|ks| - 1], defaults);
      assert ks == ks[..|ks| - 1] + [ks[|ks| - 1]];
    }
  }

  /** An option that has a value keeps it; every other key gets its default value. */
  lemma {:induction false} FilledValues(opts: Props, ks: seq<string>, defaults: map<string, Value>)
    requires Wf(opts)
    requires forall i :: 0 <= i < |ks| ==> ks[i] in defaults
    ensures var r := Filled(opts, ks, defaults);
      forall k :: k in r.values ==>
        if k in opts.values then r.values[k] == opts.values[k] else k in defaults && r.values[k] == defaults[k]
    decreases |ks|
  {
    if ks != [] {
      var init := ks[..|ks| - 1];
      FilledValues(opts, init, defaults);
      FilledDomain(opts, init, defaults);
      FilledDomain(opts, ks, defaults);
    }
  }

  /** With distinct default keys, the missing ones are appended in order. */
  lemma {:induction false} FilledKeys(opts: Props, ks: seq<string>, defaults: map<string, Value>)
    requires Wf(opts)
    requires forall i :: 0 <= i < |ks| ==> ks[i] in defaults
    requires forall i, j :: 0 <= i < j < |ks| ==> ks[i] != ks[j]
    ensures Filled(opts, ks, defaults).keys == opts.keys + Absent(ks, opts.values)
    decreases |ks|
  {
    if ks != [] {
      var init := ks[..|ks| - 1];
      var k := ks[|ks| - 1];
      FilledKeys(opts, init, defaults);
      FilledDomain(opts, init, defaults);
      assert k !in init;
      var r := Filled(opts, init, defaults);
      assert k in r.values <==> k in opts.values;
    }
  }

  /** Two maps with the same keys and the same value under each key are equal. */
  lemma SameMap(a: map<string, Value>, b: map<string, Value>)
    requires forall k :: k in a <==> k in b
    requires forall k :: k in a ==> a[k] == b[k]
    ensures a == b
  {
  }

  /** A map holding the keys of `o` and `d`, with the value of `o` where both have one,
      is their merge. */
  lemma MergedMap(r: map<string, Value>, d: map<string, Value>, o: map<string, Value>)
    requires forall k :: k in r <==> k in o || k in d
    requires forall k :: k in r ==> r[k] == if k in o then o[k] else d[k]
    ensures r == d + o
  {
  }

  /** Filling in all the defaults: the options win over the defaults. */
  lemma FilledAll(opts: Props, defaults: Props)
    requires Wf(opts) && Wf(defaults)
    ensures var r := Filled(opts, defaults.keys, defaults.values);
      && r.values == defaults.values + opts.values
      && r.keys == opts.keys + Absent(defaults.keys, opts.values)
  {
    FilledDomain(opts, defaults.keys, defaults.values);
    FilledValues(opts, defaults.keys, defaults.values);
    FilledKeys(opts, defaults.keys, defaults.values);
    MergedMap(Filled(opts, defaults.keys, defaults.values).values, defaults.values, opts.values);
  }

  /** The loop of `getopts` that sets defaults: each default whose key the options lack
      is added, after the options' own keys and in the order of the defaults; an option
      that has a value keeps it. */
  method FillDefaults(opts: Props, defaults: Props) returns (r: Props)
    requires Wf(opts) && Wf(defaults)
    ensures r == Filled(opts, defaults.keys, defaults.values)
    ensures Wf(r)
    ensures r.values == defaults.values + opts.values
    ensures r.keys == opts.keys + Absent(defaults.keys, opts.values)
  {
    r := opts;
    for i := 0 to |defaults.keys|
      invariant r == Filled(opts, defaults.keys[..i], defaults.values)
    {
      var opt := defaults.keys[i];
      assert defaults.keys[..i + 1][..i] == defaults.keys[..i];
      if opt !in r.values {
        r := Set(r, opt, defaults.values[opt]);
      }
    }
    assert defaults.keys[..|defaults.keys|] == defaults.keys;
    FilledAll(opts, defaults);
  }

  // --------------------------------------------------------------- buildConfig

  /** The object `buildConfig` builds from the keys `ks` with values `vals`: for each key
      in order, the value stored under the key's camelCase form. */
  function Rekey(ks: seq<string>, vals: map<string, Value>): (r: Props)
    requires forall i :: 0 <= i < |ks| ==> ks[i] in vals
    ensures Wf(r)
    decreases |ks|
  {
    if ks == [] then Empty
    else Set(Rekey(ks[..|ks| - 1], vals), CamelCase(ks[|ks| - 1]), vals[ks[|ks| - 1]])
  }

  /** One more key re-keys the prefix and then sets that key's camelCase form. */
  lemma RekeyNext(ks: seq<string>, vals: map<string, Value>, i: nat)
    requires forall j :: 0 <= j < |ks| ==> ks[j] in vals
    requires i < |ks|
    ensures Rekey(ks[..i + 1], vals) == Set(Rekey(ks[..i], vals), CamelCase(ks[i]), vals[ks[i]])
  {
    assert ks[..i + 1][..i] == ks[..i];
  }

  /** Every key of the result is the camelCase form of an input key. */
  lemma {:induction false} RekeyKeysFrom(ks: seq<string>, vals: map<string, Value>)
    requires forall i :: 0 <= i < |ks| ==> ks[i] in vals
    ensures forall k :: k in Rekey(ks, vals).values ==> exists j :: 0 <= j < |ks| && CamelCase(ks[j]) == k
    decreases |ks|
  {
    if ks != [] {
      var init := ks[..|ks| - 1];
      RekeyKeysFrom(init, vals);
      forall k | k in Rekey(ks, vals).values ensures exists j :: 0 <= j < |ks| && CamelCase(ks[j]) == k {
        if k != CamelCase(ks[|ks| - 1]) {
          assert Rekey(ks, vals).values == Rekey(init, vals).values[CamelCase(ks[|ks| - 1]) := vals[ks[|ks| - 1]]];
          assert k in Rekey(init, vals).values;
          var j :| 0 <= j < |init| && CamelCase(init[j]) == k;
          assert ks[j] == init[j];
        }
      }
    }
  }

  /** The camelCase form of every input key is a key of the result. */
  lemma {:induction false} RekeyKeysTo(ks: seq<string>, vals: map<string, Value>)
    requires forall i :: 0 <= i < |ks| ==> ks[i] in vals
    ensures forall j :: 0 <= j < |ks| ==> CamelCase(ks[j]) in Rekey(ks, vals).values
    decreases |ks|
  {
    if ks != [] {
      var init := ks[..|ks| - 1];
      RekeyKeysTo(init, vals);
      assert forall j :: 0 <= j < |init| ==> ks[j] == init[j];
    }
  }

  /** Later keys win: the value under a camelCase name is the value of the last input
      key with that camelCase form. */
  lemma {:induction false} RekeyLastWins(ks: seq<string>, vals: map<string, Value>, j: nat)
    requires forall i :: 0 <= i < |ks| ==> ks[i] in vals
    requires j < |ks|
    requires forall i :: j < i < |ks| ==> CamelCase(ks[i]) != CamelCase(ks[j])
    ensures CamelCase(ks[j]) in Rekey(ks, vals).values
    ensures Rekey(ks, vals).values[CamelCase(ks[j])] == vals[ks[j]]
    decreases |ks|
  {
    if j < |ks| - 1 {
      var init := ks[..|ks| - 1];
      assert init[j] == ks[j];
      forall i | j < i < |init| ensures CamelCase(init[i]) != CamelCase(init[j]) {
        assert init[i] == ks[i];
      }
      RekeyLastWins(init, vals, j);
    }
  }

  /** No key of the result contains '-'. */
  lemma RekeyNoHyphen(ks: seq<string>, vals: map<string, Value>)
    requires forall i :: 0 <= i < |ks| ==> ks[i] in vals
    ensures forall k :: k in Rekey(ks, vals).values ==> '-' !in k
  {
    RekeyKeysFrom(ks, vals);
  }

  /** Re-keying a prefix of an object whose keys contain no '-' keeps that prefix's keys,
      order and values. */
  lemma {:induction false} RekeyIdentity(p: Props, n: nat)
    requires Wf(p) && n <= |p.keys|
    requires forall i :: 0 <= i < |p.keys| ==> '-' !in p.keys[i]
    ensures forall i :: 0 <= i < n ==> p.keys[i] in p.values
    ensures var r := Rekey(p.keys[..n], p.values);
      && r.keys == p.keys[..n]
      && (forall k :: k in r.values <==> k in p.keys[..n])
      && (forall k :: k in r.values ==> r.values[k] == p.values[k])
  {
    if n > 0 {
      RekeyIdentity(p, n - 1);
      var k := p.keys[n - 1];
      assert p.keys[..n][..n - 1] == p.keys[..n - 1];
      assert p.keys[..n] == p.keys[..n - 1] + [k];
      assert k !in p.keys[..n - 1];
      assert CamelCase(k) == k;
    }
  }

  /** An object whose keys are all in camelCase already comes out of buildConfig equal
      to itself, order included. */
  lemma RekeyUnchanged(p: Props)
    requires Wf(p)
    requires forall i :: 0 <= i < |p.keys| ==> '-' !in p.keys[i]
    ensures Rekey(p.keys, p.values) == p
  {
    RekeyIdentity(p, |p.keys|);
    assert p.keys[..|p.keys|] == p.keys;
    var r := Rekey(p.keys, p.values);
    SameMap(r.values, p.values);
  }

  /** `buildConfig(gotten)`: the options re-keyed by camelCase, in key order. */
  method BuildConfig(opts: Props) returns (cfg: Props)
    requires Wf(opts)
    ensures cfg == Rekey(opts.keys, opts.values)
    ensures Wf(cfg)
    ensures forall k :: k in cfg.values ==> '-' !in k
  {
    cfg := Empty;
    assert forall j :: 0 <= j < |opts.keys| ==> opts.keys[j] in opts.values;
    for i := 0 to |opts.keys|
      invariant cfg == Rekey(opts.keys[..i], opts.values)
    {
      var key := opts.keys[i];
      var newKey := CamelCase(key);
      RekeyNext(opts.keys, opts.values, i);
      cfg := Set(cfg, newKey, opts.values[key]);
    }
    assert opts.keys[..|opts.keys|] == opts.keys;
    RekeyNoHyphen(opts.keys, opts.values);
  }

  /** "latency" has no '-', so it is its own camelCase form. */
  lemma LatencyIsCamel()
    ensures CamelCase("latency") == "latency"
  {
    var s := "latency";
    assert forall i :: 0 <= i < |s| ==> s[i] != '-';
  }

  /** The keys once the defaults are filled in: the option keys, with "latency" appended
      when it was not given. */
  lemma FilledLatencyKeys(opts: Props)
    requires Wf(opts)
    ensures "latency" in opts.values ==> Filled(opts, Defaults().keys, Defaults().values).keys == opts.keys
    ensures "latency" !in opts.values ==> Filled(opts, Defaults().keys, Defaults().values).keys == opts.keys + ["latency"]
  {
    var d := Defaults();
    FilledKeys(opts, d.keys, d.values);
    assert Absent(d.keys, opts.values) == if "latency" in opts.values then [] else ["latency"] by {
      assert d.keys[..0] == [];
    }
  }

  /** Where "latency" sits in the options once the defaults are filled in: at its own
      place when given, else last. */
  lemma LatencyPlace(opts: Props) returns (j: nat)
    requires Wf(opts)
    ensures var ks := Filled(opts, Defaults().keys, Defaults().values).keys;
      && j < |ks| && ks[j] == "latency"
      && (forall i :: j < i < |ks| ==> i < |opts.keys| && ks[i] == opts.keys[i] && ks[i] != "latency")
      && ("latency" in opts.values <==> j < |opts.keys|)
  {
    FilledLatencyKeys(opts);
    var ks := Filled(opts, Defaults().keys, Defaults().values).keys;
    if "latency" in opts.values {
      assert ks == opts.keys;
      j :| j < |ks| && ks[j] == "latency";
    } else {
      assert ks == opts.keys + ["latency"];
      j := |opts.keys|;
    }
  }

  /** No option other than "latency" itself has camelCase form "latency". */
  predicate NoOtherLatency(opts: Props) {
    forall i :: 0 <= i < |opts.keys| && opts.keys[i] != "latency" ==> CamelCase(opts.keys[i]) != "latency"
  }

  /** The value the defaults loop leaves under one key. */
  lemma FilledValueAt(opts: Props, ks: seq<string>, defaults: map<string, Value>, k: string)
    requires Wf(opts)
    requires forall i :: 0 <= i < |ks| ==> ks[i] in defaults
    requires k in Filled(opts, ks, defaults).values
    ensures k in opts.values ==> Filled(opts, ks, defaults).values[k] == opts.values[k]
    ensures k !in opts.values ==> k in defaults && Filled(opts, ks, defaults).values[k] == defaults[k]
  {
    FilledValues(opts, ks, defaults);
  }

  /** The camelCase form of one input key is a key of the result. */
  lemma RekeyHasKey(ks: seq<string>, vals: map<string, Value>, j: nat)
    requires forall i :: 0 <= i < |ks| ==> ks[i] in vals
    requires j < |ks|
    ensures CamelCase(ks[j]) in Rekey(ks, vals).values
  {
    RekeyKeysTo(ks, vals);
  }

  /** Every key of a well-formed object has a value. */
  lemma KeysHaveValues(p: Props)
    requires Wf(p)
    ensures forall i :: 0 <= i < |p.keys| ==> p.keys[i] in p.values
  {
  }

  /** "latency" is one of the keys once the defaults are filled in. */
  lemma LatencyListed(opts: Props) returns (j: nat)
    requires Wf(opts)
    ensures j < |Filled(opts, Defaults().keys, Defaults().values).keys|
    ensures Filled(opts, Defaults().keys, Defaults().values).keys[j] == "latency"
  {
    j := LatencyPlace(opts);
  }

  /** "latency" is a key of the configuration whatever the options are. */
  lemma LatencyPresent(opts: Props)
    requires Wf(opts)
    ensures var filled := Filled(opts, Defaults().keys, Defaults().values);
      "latency" in Rekey(filled.keys, filled.values).values
  {
    var filled := Filled(opts, Defaults().keys, Defaults().values);
    var j := LatencyListed(opts);
    LatencyIsCamel();
    KeysHaveValues(filled);
    RekeyHasKey(filled.keys, filled.values, j);
  }

  /** When no other option has camelCase form "latency", no key after "latency" in
      the filled options has it either. */
  lemma LatencyLast(opts: Props) returns (j: nat)
    requires Wf(opts) && NoOtherLatency(opts)
    ensures var ks := Filled(opts, Defaults().keys, Defaults().values).keys;
      && j < |ks| && ks[j] == "latency" && CamelCase(ks[j]) == "latency"
      && (forall i :: j < i < |ks| ==> CamelCase(ks[i]) != CamelCase(ks[j]))
  {
    var ks := Filled(opts, Defaults().keys, Defaults().values).keys;
    j := LatencyPlace(opts);
    LatencyIsCamel();
    forall i | j < i < |ks| ensures CamelCase(ks[i]) != CamelCase(ks[j]) {
      assert i < |opts.keys| && ks[i] == opts.keys[i] && ks[i] != "latency";
    }
  }

  /** Unless another option name has camelCase form "latency", the configured latency
      is the option's value when given, else 1500. */
  lemma LatencyValue(opts: Props)
    requires Wf(opts)
    requires NoOtherLatency(opts)
    ensures var filled := Filled(opts, Defaults().keys, Defaults().values);
      var cfg := Rekey(filled.keys, filled.values);
      && "latency" in cfg.values
      && cfg.values["latency"] == (if "latency" in opts.values then opts.values["latency"] else Num(1500))
  {
    var filled := Filled(opts, Defaults().keys, Defaults().values);
    var j := LatencyLast(opts);
    KeysHaveValues(filled);
    RekeyLastWins(filled.keys, filled.values, j);
    FilledValueAt(opts, Defaults().keys, Defaults().values, "latency");
  }

  /** The latency is always configured: the option's value when given, else 1500,
      unless another option name also has camelCase form "latency", in which case the
      later of them wins (see RekeyLastWins). */
  lemma ConfiguredLatency(opts: Props)
    requires Wf(opts)
    ensures var filled := Filled(opts, Defaults().keys, Defaults().values);
      var cfg := Rekey(filled.keys, filled.values);
      && "latency" in cfg.values
      && (NoOtherLatency(opts)
          ==> cfg.values["latency"] == (if "latency" in opts.values then opts.values["latency"] else Num(1500)))
  {
    LatencyPresent(opts);
    if NoOtherLatency(opts) {
      LatencyValue(opts);
    }
  }

  /** What `run` does with the parsed options before it builds the debouncer: defaults
      filled in, then re-keyed. */
  method Configure(opts: Props) returns (cfg: Props)
    requires Wf(opts)
    ensures "latency" in cfg.values
    ensures NoOtherLatency(opts)
      ==> cfg.values["latency"] == (if "latency" in opts.values then opts.values["latency"] else Num(1500))
  {
    var filled := FillDefaults(opts, Defaults());
    cfg := BuildConfig(filled);
    ConfiguredLatency(opts);
  }
}
