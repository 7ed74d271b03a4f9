/** `read_input_file` (parse.py:35-113): the line-oriented `key = value`
    settings parser. The file arrives as the list of its lines, each with
    its line terminator, as `readlines` returns them. The settings
    dictionary is an association list in insertion order, as a Python
    dictionary iterates; the `constraints` tuple is kept beside it. */
module SettingsFile {
  import opened Wrappers
  import opened Text

  datatype Value = Bool(b: bool) | Int(n: nat) | Str(s: string) | Null

  /** The dictionary `read_input_file` returns: its entries in insertion
      order, and the value of its `constraints` entry. */
  datatype Settings = Settings(entries: seq<(string, Value)>, constraints: seq<string>)

  /** The `ValueError`s the parser raises; `line` is the 1-based line number. */
  datatype SettingsError =
    | MissingEquals(line: nat, text: string)
    | UnknownKey(line: nat, key: string)
    | DuplicateKey(line: nat, key: string)
    | BadBool(line: nat, key: string)
    | BadInt(line: nat, key: string)
    | BadWindow(line: nat, value: string)

  // ------------------------------------------------------------ known keys (parse.py:39-50)

  const ConstraintKeys: seq<string> :=
    ["w_stress", "s_unstress", "unres_within", "foot_size", "unres_across", "s_trough", "w_peak"]
  const IntKeys: seq<string> := ["max_s", "max_w", "min_syllables", "max_syllables"]
  /** The boolean keys other than the constraint keys. */
  const FlagKeys: seq<string> :=
    ["exhaustive", "resolve_optionality", "verse", "pentameter", "include_sums", "MU", "MTS",
     "collapse_parses", "include_norms"]
  const StrKeys: seq<string> := ["text", "input_file", "window", "output_file", "meter"]
  const WindowModes: seq<string> := ["beginning", "middle", "end"]

  /** `k in ks`. */
  predicate Member(k: string, ks: seq<string>) {
    ks != [] && (ks[0] == k || Member(k, ks[1..]))
  }

  lemma {:induction false} MemberIff(k: string, ks: seq<string>)
    ensures Member(k, ks) <==> k in ks
  {
    if ks != [] {
      MemberIff(k, ks[1..]);
      assert ks == [ks[0]] + ks[1..];
    }
  }

  predicate IsConstraintKey(k: string) { Member(k, ConstraintKeys) }
  predicate IsBoolKey(k: string) { Member(k, FlagKeys) || IsConstraintKey(k) }
  predicate IsIntKey(k: string) { Member(k, IntKeys) }
  predicate IsStrKey(k: string) { Member(k, StrKeys) }
  /** `k in all_keys`. */
  predicate IsKnownKey(k: string) { IsIntKey(k) || IsBoolKey(k) || IsStrKey(k) }
  predicate IsWindowMode(w: string) { Member(w, WindowModes) }

  /** `all_keys`, in one list, for the test that ends a text block. */
  const KeyList: seq<string> := IntKeys + FlagKeys + ConstraintKeys + StrKeys

  lemma KeyListIsAllKeys(k: string)
    ensures IsKnownKey(k) <==> k in KeyList
  {
    MemberIff(k, ConstraintKeys);
    MemberIff(k, IntKeys);
    MemberIff(k, FlagKeys);
    MemberIff(k, StrKeys);
  }

  /** `any(line.startswith(k + " =") for k in all_keys)` (parse.py:70). */
  predicate StartsWithKey(line: string) {
    StartsWithOneOf(line, KeyList)
  }

  predicate StartsWithOneOf(line: string, keys: seq<string>) {
    keys != [] && (StartsWith(line, keys[0] + " =") || StartsWithOneOf(line, keys[1..]))
  }

  /** `s.lower() == t` for a lower-case `t`. */
  predicate LowerIs(s: string, t: string) {
    if s == [] then t == [] else t != [] && LowerChar(s[0]) == t[0] && LowerIs(s[1..], t[1..])
  }

  lemma {:induction false} LowerIsIff(s: string, t: string)
    ensures LowerIs(s, t) <==> Lower(s) == t
  {
    if s != [] && t != [] {
      LowerIsIff(s[1..], t[1..]);
      assert Lower(s) == [LowerChar(s[0])] + Lower(s[1..]);
    }
  }

  // ------------------------------------------------------------ the dictionary

  function Keys(es: seq<(string, Value)>): (ks: seq<string>)
    ensures |ks| == |es| && forall i :: 0 <= i < |es| ==> ks[i] == es[i].0
  {
    seq(|es|, i requires 0 <= i < |es| => es[i].0)
  }

  /** `settings[k] = v`: replaces the value in place when `k` is present,
      appends the entry otherwise. */
  function Put(es: seq<(string, Value)>, k: string, v: Value): (r: seq<(string, Value)>)
    ensures k !in Keys(es) ==> r == es + [(k, v)]
    ensures k in Keys(es) ==> |r| == |es| && forall i :: 0 <= i < |es| ==>
      r[i] == (if es[i].0 == k then (k, v) else es[i])
  {
    if k in Keys(es) then seq(|es|, i requires 0 <= i < |es| => if es[i].0 == k then (k, v) else es[i])
    else es + [(k, v)]
  }

  /** The value stored under `k`. */
  function Lookup(es: seq<(string, Value)>, k: string): Option<Value> {
    if es == [] then None
    else if es[0].0 == k then Some(es[0].1)
    else Lookup(es[1..], k)
  }

  /** The constraint keys set to true, in dictionary order. */
  function TrueConstraints(es: seq<(string, Value)>): seq<string> {
    if es == [] then []
    else
      (if IsConstraintKey(es[0].0) && es[0].1 == Bool(true) then [es[0].0] else [])
      + TrueConstraints(es[1..])
  }

  // ------------------------------------------------------------ reference definition

  datatype State = State(entries: seq<(string, Value)>, constraints: seq<string>)

  /** Lines that are skipped: blank, or a comment (parse.py:62-64). */
  predicate Skippable(raw: string) {
    var line := Strip(raw);
    line == [] || StartsWith(line, "#")
  }

  /** A line whose stripped form starts with a known key followed by
      ` =` ends a text block (parse.py:69-71). */
  predicate EndsBlock(raw: string) {
    StartsWithKey(Strip(raw))
  }

  /** The first line at or after `j` that ends a text block. */
  function BlockEnd(lines: seq<string>, j: nat): (e: nat)
    requires j <= |lines|
    ensures j <= e <= |lines|
    ensures e < |lines| ==> EndsBlock(lines[e])
    ensures forall k :: j <= k < e ==> !EndsBlock(lines[k])
    decreases |lines| - j
  {
    if j == |lines| || EndsBlock(lines[j]) then j else BlockEnd(lines, j + 1)
  }

  /** The value a text block starting at line `i` and ending before line
      `e` gives `text` (parse.py:66-75). */
  function TextValue(lines: seq<string>, i: nat, e: nat): Value
    requires i < e <= |lines|
  {
    BlockValue(LStrip(After(lines[i], "text =")) + Concat(lines[i + 1..e]))
  }

  /** The value of the raw text of a block: its trailing line feeds are
      dropped, and `none` in any case is null. */
  function BlockValue(raw: string): Value {
    var v := RStripNewlines(raw);
    if LowerIs(Strip(v), "none") then Null else Str(v)
  }

  /** `line.split("=", 1)` with both halves stripped (parse.py:81-83), or
      `None` when the line has no `=`. */
  function SplitAssignment(line: string): (kv: Option<(string, string)>)
    ensures kv.None? <==> '=' !in line
  {
    match IndexOf(line, '=')
    case None => None
    case Some(p) => Some((Strip(line[..p]), Strip(line[p + 1..])))
  }

  /** The value a known key's raw value converts to (parse.py:89-107). */
  function Convert(key: string, value: string, n: nat): (r: Result<Value, SettingsError>)
    ensures r.Failure? ==> (r.error.BadBool? || r.error.BadInt? || r.error.BadWindow?) && r.error.line == n + 1
  {
    if IsBoolKey(key) then
      if !LowerIs(value, "true") && !LowerIs(value, "false") then Failure(BadBool(n + 1, key))
      else Success(Bool(LowerIs(value, "true")))
    else if IsIntKey(key) then
      if !IsDigits(value) then Failure(BadInt(n + 1, key))
      else Success(Int(ParseNat(value)))
    else
      var v := if LowerIs(value, "none") then Null else Str(Strip(value));
      if key == "window" && v.Str? && v.s != [] && !IsWindowMode(v.s) then Failure(BadWindow(n + 1, v.s))
      else Success(v)
  }

  /** What a `key = value` line does to the dictionary (parse.py:78-110). */
  function Assign(line: string, n: nat, st: State): (r: Result<State, SettingsError>)
    ensures r.Failure? ==> r.error.line == n + 1
  {
    match SplitAssignment(line)
    case None => Failure(MissingEquals(n + 1, line))
    case Some(kv) => Store(kv.0, kv.1, n, st)
  }

  /** The key and value of a line with `=` (parse.py:85-110): a true
      constraint key is also appended to `constraints`. */
  function Store(key: string, value: string, n: nat, st: State): (r: Result<State, SettingsError>)
    ensures r.Failure? ==> !r.error.MissingEquals? && r.error.line == n + 1
  {
    if !IsKnownKey(key) then Failure(UnknownKey(n + 1, key))
    else if key in Keys(st.entries) then Failure(DuplicateKey(n + 1, key))
    else
      match Convert(key, value, n)
      case Failure(err) => Failure(err)
      case Success(v) =>
        Success(State(Put(st.entries, key, v),
          if IsConstraintKey(key) && v == Bool(true) then st.constraints + [key] else st.constraints))
  }

  /** The main loop from line `i` on, in state `st` (parse.py:57-110). */
  function Run(lines: seq<string>, i: nat, st: State): Result<State, SettingsError>
    requires i <= |lines|
    decreases |lines| - i
  {
    if i == |lines| then Success(st)
    else
      var line := Strip(lines[i]);
      if line == [] || StartsWith(line, "#") then Run(lines, i + 1, st)
      else if StartsWith(line, "text =") then
        var e := BlockEnd(lines, i + 1);
        Run(lines, e, st.(entries := Put(st.entries, "text", TextValue(lines, i, e))))
      else
        match Assign(line, i, st)
        case Failure(err) => Failure(err)
        case Success(st') => Run(lines, i + 1, st')
  }

  /** `read_input_file` on the lines of the file. */
  function ReadSettings(lines: seq<string>): Result<Settings, SettingsError> {
    match Run(lines, 0, State([], []))
    case Failure(err) => Failure(err)
    case Success(st) => Success(Settings(st.entries, st.constraints))
  }

  // ------------------------------------------------------------ the parser

  /** One `key = value` line (parse.py:78-110). */
  method AssignLine(line: string, n: nat, entries: seq<(string, Value)>, constraints: seq<string>)
    returns (r: Result<State, SettingsError>)
    ensures r == Assign(line, n, State(entries, constraints))
  {
    var eq := IndexOf(line, '=');
    if eq.None? {
      return Failure(MissingEquals(n + 1, line));
    }
    var key := Strip(line[..eq.value]);
    var value := Strip(line[eq.value + 1..]);
    assert SplitAssignment(line) == Some((key, value));
    if !IsKnownKey(key) {
      return Failure(UnknownKey(n + 1, key));
    }
    if key in Keys(entries) {
      return Failure(DuplicateKey(n + 1, key));
    }
    var converted := Convert(key, value, n);
    if converted.Failure? {
      return Failure(converted.error);
    }
    var cs := constraints;
    if IsConstraintKey(key) && converted.value == Bool(true) {
      cs := cs + [key];
    }
    return Success(State(Put(entries, key, converted.value), cs));
  }

  /** Once the loop has failed it stays failed. */
  lemma {:induction false} RunStep(lines: seq<string>, i: nat, st: State)
    requires i < |lines|
    requires var line := Strip(lines[i]);
      !(line == [] || StartsWith(line, "#")) && !StartsWith(line, "text =")
    ensures Assign(Strip(lines[i]), i, st).Failure? ==> Run(lines, i, st) == Failure(Assign(Strip(lines[i]), i, st).error)
    ensures Assign(Strip(lines[i]), i, st).Success? ==> Run(lines, i, st) == Run(lines, i + 1, Assign(Strip(lines[i]), i, st).value)
  {
  }

  /** The raw lines a text block absorbs, from line `j` on (parse.py:68-73). */
  method BlockBody(lines: seq<string>, j: nat) returns (e: nat, body: string)
    requires j <= |lines|
    ensures e == BlockEnd(lines, j)
    ensures body == Concat(lines[j..e])
  {
    body := "";
    e := j;
    assert lines[j..e] == [];
    while e < |lines| && !EndsBlock(lines[e])
      invariant j <= e <= |lines|
      invariant BlockEnd(lines, e) == BlockEnd(lines, j)
      invariant body == Concat(lines[j..e])
      decreases |lines| - e
    {
      ConcatStep(lines, j, e);
      body := body + lines[e];
      e := e + 1;
    }
  }

  /** The text block starting at line `i` (parse.py:65-76): where it ends
      and the value it gives `text`. */
  method ReadTextBlock(lines: seq<string>, i: nat) returns (e: nat, v: Value)
    requires i < |lines|
    ensures e == BlockEnd(lines, i + 1)
    ensures v == TextValue(lines, i, e)
  {
    var textValue := LStrip(After(lines[i], "text ="));
    var body;
    e, body := BlockBody(lines, i + 1);
    textValue := RStripNewlines(textValue + body);
    v := if LowerIs(Strip(textValue), "none") then Null else Str(textValue);
  }

  lemma ConcatStep(lines: seq<string>, j: nat, e: nat)
    requires j <= e < |lines|
    ensures Concat(lines[j..e + 1]) == Concat(lines[j..e]) + lines[e]
  {
    assert lines[j..e + 1][..e - j] == lines[j..e];
  }

  /** `read_input_file` (parse.py:35-113). */
  method ReadInputFile(lines: seq<string>) returns (r: Result<Settings, SettingsError>)
    ensures r == ReadSettings(lines)
  {
    var entries: seq<(string, Value)> := [];
    var constraints: seq<string> := [];
    var i: nat := 0;
    while i < |lines|
      invariant i <= |lines|
      invariant Run(lines, i, State(entries, constraints)) == Run(lines, 0, State([], []))
      decreases |lines| - i
    {
      var rawLine := lines[i];
      var line := Strip(rawLine);
      if line == [] || StartsWith(line, "#") {
        i := i + 1;
        continue;
      }
      if StartsWith(line, "text =") {
        var e, v := ReadTextBlock(lines, i);
        entries := Put(entries, "text", v);
        i := e;
        continue;
      }
      RunStep(lines, i, State(entries, constraints));
      var step := AssignLine(line, i, entries, constraints);
      if step.Failure? {
        return Failure(step.error);
      }
      entries, constraints := step.value.entries, step.value.constraints;
      i := i + 1;
    }
    return Success(Settings(entries, constraints));
  }

  // ------------------------------------------------------------ what the dictionary holds

  /** The value a key may hold: a boolean for a boolean key, an integer for
      an integer key, otherwise a string or null, and for `window` one of
      the three modes or the empty string. */
  predicate WellTyped(k: string, v: Value) {
    if IsBoolKey(k) then v.Bool?
    else if IsIntKey(k) then v.Int?
    else v.Null? || (v.Str? && (k == "window" ==> v.s == [] || IsWindowMode(v.s)))
  }

  predicate DistinctKeys(es: seq<(string, Value)>) {
    forall i, j :: 0 <= i < j < |es| ==> es[i].0 != es[j].0
  }

  predicate KnownAndTyped(es: seq<(string, Value)>) {
    forall i :: 0 <= i < |es| ==> IsKnownKey(es[i].0) && WellTyped(es[i].0, es[i].1)
  }

  /** The invariant of the parser's state. */
  predicate Consistent(es: seq<(string, Value)>, cs: seq<string>) {
    KnownAndTyped(es) && DistinctKeys(es) && cs == TrueConstraints(es)
  }

  lemma {:induction false} TrueConstraintsSnoc(es: seq<(string, Value)>, k: string, v: Value)
    ensures TrueConstraints(es + [(k, v)]) ==
      TrueConstraints(es) + (if IsConstraintKey(k) && v == Bool(true) then [k] else [])
  {
    if es == [] {
      assert [(k, v)][1..] == [];
    } else {
      assert (es + [(k, v)])[1..] == es[1..] + [(k, v)];
      TrueConstraintsSnoc(es[1..], k, v);
    }
  }

  /** Changing values of keys that are not constraint keys leaves the
      constraints alone. */
  lemma {:induction false} TrueConstraintsSame(es: seq<(string, Value)>, fs: seq<(string, Value)>)
    requires |es| == |fs|
    requires forall i :: 0 <= i < |es| ==> es[i].0 == fs[i].0 && (IsConstraintKey(es[i].0) ==> es[i].1 == fs[i].1)
    ensures TrueConstraints(es) == TrueConstraints(fs)
  {
    if es != [] {
      TrueConstraintsSame(es[1..], fs[1..]);
    }
  }

  lemma PutConsistent(es: seq<(string, Value)>, cs: seq<string>, k: string, v: Value)
    requires Consistent(es, cs) && IsKnownKey(k) && WellTyped(k, v)
    requires k in Keys(es) ==> !IsConstraintKey(k)
    ensures Consistent(Put(es, k, v), if k !in Keys(es) && IsConstraintKey(k) && v == Bool(true) then cs + [k] else cs)
  {
    if k in Keys(es) {
      TrueConstraintsSame(es, Put(es, k, v));
    } else {
      TrueConstraintsSnoc(es, k, v);
    }
  }

  /** Every value `Convert` produces fits its key. */
  lemma ConvertTyped(key: string, value: string, n: nat)
    requires Convert(key, value, n).Success?
    ensures WellTyped(key, Convert(key, value, n).value)
  {
  }

  lemma AssignConsistent(line: string, n: nat, st: State)
    requires Consistent(st.entries, st.constraints)
    requires Assign(line, n, st).Success?
    ensures Consistent(Assign(line, n, st).value.entries, Assign(line, n, st).value.constraints)
  {
    var kv := SplitAssignment(line).value;
    var (key, value) := kv;
    var v := Convert(key, value, n).value;
    assert key !in Keys(st.entries);
    assert Assign(line, n, st).value ==
      State(Put(st.entries, key, v), if IsConstraintKey(key) && v == Bool(true) then st.constraints + [key] else st.constraints);
    ConvertTyped(key, value, n);
    PutConsistent(st.entries, st.constraints, key, v);
  }

  lemma TextNotListed()
    ensures "text" !in FlagKeys && "text" !in ConstraintKeys && "text" !in IntKeys
    ensures "text" in StrKeys
  {
    assert StrKeys[0] == "text";
  }

  lemma TextIsStrKey()
    ensures IsKnownKey("text") && !IsBoolKey("text") && !IsIntKey("text") && !IsConstraintKey("text")
  {
    TextNotListed();
    MemberIff("text", FlagKeys);
    MemberIff("text", ConstraintKeys);
    MemberIff("text", IntKeys);
    MemberIff("text", StrKeys);
  }

  lemma TextConsistent(es: seq<(string, Value)>, cs: seq<string>, lines: seq<string>, i: nat, e: nat)
    requires Consistent(es, cs)
    requires i < e <= |lines|
    ensures Consistent(Put(es, "text", TextValue(lines, i, e)), cs)
  {
    TextIsStrKey();
    var v := TextValue(lines, i, e);
    assert v.Str? || v.Null?;
    PutConsistent(es, cs, "text", v);
  }

  lemma {:induction false} RunConsistent(lines: seq<string>, i: nat, st: State)
    requires i <= |lines| && Consistent(st.entries, st.constraints)
    requires Run(lines, i, st).Success?
    ensures Consistent(Run(lines, i, st).value.entries, Run(lines, i, st).value.constraints)
    decreases |lines| - i
  {
    if i < |lines| {
      var line := Strip(lines[i]);
      if line == [] || StartsWith(line, "#") {
        RunConsistent(lines, i + 1, st);
      } else if StartsWith(line, "text =") {
        var e := BlockEnd(lines, i + 1);
        TextConsistent(st.entries, st.constraints, lines, i, e);
        RunConsistent(lines, e, st.(entries := Put(st.entries, "text", TextValue(lines, i, e))));
      } else {
        AssignConsistent(line, i, st);
        RunConsistent(lines, i + 1, Assign(line, i, st).value);
      }
    }
  }

  /** Whatever file is read successfully, every key is known and appears
      once with a value of its type, and `constraints` lists exactly the
      constraint keys set to true, in the order of the dictionary, which is
      the order of the file. */
  lemma SettingsWellFormed(lines: seq<string>)
    requires ReadSettings(lines).Success?
    ensures KnownAndTyped(ReadSettings(lines).value.entries)
    ensures DistinctKeys(ReadSettings(lines).value.entries)
    ensures ReadSettings(lines).value.constraints == TrueConstraints(ReadSettings(lines).value.entries)
  {
    RunConsistent(lines, 0, State([], []));
  }

  // ------------------------------------------------------------ the errors

  /** Every error names the 1-based number of the line it comes from. */
  lemma {:induction false} RunErrorLine(lines: seq<string>, i: nat, st: State)
    requires i <= |lines| && Run(lines, i, st).Failure?
    ensures i < Run(lines, i, st).error.line <= |lines|
    decreases |lines| - i
  {
    var line := Strip(lines[i]);
    if line == [] || StartsWith(line, "#") {
      RunErrorLine(lines, i + 1, st);
    } else if StartsWith(line, "text =") {
      RunErrorLine(lines, BlockEnd(lines, i + 1), st.(entries := Put(st.entries, "text", TextValue(lines, i, BlockEnd(lines, i + 1)))));
    } else if Assign(line, i, st).Success? {
      RunErrorLine(lines, i + 1, Assign(line, i, st).value);
    }
  }

  /** A line without `=` is rejected. */
  lemma MissingEqualsIff(line: string, n: nat, st: State)
    ensures Assign(line, n, st) == Failure(MissingEquals(n + 1, line)) <==> '=' !in line
  {
  }

  /** With an `=`, the line stores the key and value around it. */
  lemma AssignSplits(line: string, n: nat, st: State)
    requires '=' in line
    ensures var (key, value) := SplitAssignment(line).value; Assign(line, n, st) == Store(key, value, n, st)
  {
  }

  /** The key must be known and new. */
  lemma KeyErrorsIff(key: string, value: string, n: nat, st: State)
    ensures Store(key, value, n, st) == Failure(UnknownKey(n + 1, key)) <==> !IsKnownKey(key)
    ensures Store(key, value, n, st) == Failure(DuplicateKey(n + 1, key)) <==> IsKnownKey(key) && key in Keys(st.entries)
  {
  }

  /** For a known, new key, the line does what the value's conversion
      does: it fails with the conversion's error, or appends the entry. */
  lemma StoreConverts(key: string, value: string, n: nat, st: State)
    requires IsKnownKey(key) && key !in Keys(st.entries)
    ensures match Convert(key, value, n)
      case Failure(e) => Store(key, value, n, st) == Failure(e)
      case Success(v) => Store(key, value, n, st).Success? && Store(key, value, n, st).value.entries == st.entries + [(key, v)]
  {
  }

  lemma WindowNotListed()
    ensures "window" !in FlagKeys && "window" !in ConstraintKeys && "window" !in IntKeys
    ensures "window" in StrKeys
  {
    assert StrKeys[2] == "window";
  }

  lemma WindowIsStrKey()
    ensures IsKnownKey("window") && !IsBoolKey("window") && !IsIntKey("window")
  {
    WindowNotListed();
    MemberIff("window", FlagKeys);
    MemberIff("window", ConstraintKeys);
    MemberIff("window", IntKeys);
    MemberIff("window", StrKeys);
  }

  /** A boolean key takes `true` or `false` in any case. */
  lemma BoolValues(key: string, value: string, n: nat)
    requires IsBoolKey(key)
    ensures Convert(key, value, n) == Failure(BadBool(n + 1, key)) <==> Lower(value) != "true" && Lower(value) != "false"
    ensures Convert(key, value, n).Success? ==> Convert(key, value, n).value == Bool(Lower(value) == "true")
  {
    LowerIsIff(value, "true");
    LowerIsIff(value, "false");
  }

  /** An integer key takes a non-empty string of digits. */
  lemma IntValues(key: string, value: string, n: nat)
    requires IsIntKey(key) && !IsBoolKey(key)
    ensures Convert(key, value, n) == Failure(BadInt(n + 1, key)) <==> !IsDigits(value)
    ensures Convert(key, value, n).Success? ==> Convert(key, value, n).value == Int(ParseNat(value))
  {
  }

  /** `max_s = <n>` and the like read back the number written. */
  lemma IntRoundTrip(key: string, k: nat, n: nat)
    requires IsIntKey(key) && !IsBoolKey(key)
    ensures Convert(key, NatToString(k), n) == Success(Int(k))
  {
    ParseNatToString(k);
  }

  /** A string key takes anything; `none` in any case is null; `window`
      must be empty or one of the three modes. */
  lemma StrValues(key: string, value: string, n: nat)
    requires !IsBoolKey(key) && !IsIntKey(key)
    ensures Convert(key, value, n) == Success(Null) <==> Lower(value) == "none"
    ensures key != "window" ==> Convert(key, value, n).Success?
    ensures key == "window" ==>
      (Convert(key, value, n).Failure? <==> Lower(value) != "none" && Strip(value) != [] && Strip(value) !in WindowModes)
  {
    LowerIsIff(value, "none");
    MemberIff(Strip(value), WindowModes);
  }

  // ------------------------------------------------------------ the loop

  /** A blank line or a comment line changes nothing (parse.py:61-63). */
  lemma SkipStep(lines: seq<string>, i: nat, st: State)
    requires i < |lines| && Skippable(lines[i])
    ensures Run(lines, i, st) == Run(lines, i + 1, st)
  {
  }

  /** The value of a text block is null exactly when it reads `none` in
      any case. */
  lemma BlockValueNull(raw: string)
    ensures BlockValue(raw) == Null <==> Lower(Strip(RStripNewlines(raw))) == "none"
  {
    LowerIsIff(Strip(RStripNewlines(raw)), "none");
  }

  /** Dropping the trailing line feeds leaves a prefix of the text that
      does not end in a line feed, followed in the text by line feeds only. */
  lemma NewlinesStripped(raw: string)
    ensures var v := RStripNewlines(raw);
      && (v == [] || v[|v| - 1] != '\n')
      && raw == v + raw[|v|..]
      && forall k :: |v| <= k < |raw| ==> raw[k] == '\n'
  {
    var v := RStripNewlines(raw);
    assert raw == raw[..|v|] + raw[|v|..];
  }

  /** Otherwise it is the raw text without its trailing line feeds. */
  lemma BlockValueText(raw: string)
    ensures BlockValue(raw).Str? ==>
      var v := BlockValue(raw).s;
      && (v == [] || v[|v| - 1] != '\n')
      && raw == v + raw[|v|..]
      && forall k :: |v| <= k < |raw| ==> raw[k] == '\n'
  {
    NewlinesStripped(raw);
    assert BlockValue(raw).Str? ==> BlockValue(raw).s == RStripNewlines(raw);
  }
}
