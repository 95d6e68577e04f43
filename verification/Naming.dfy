/** Conversion of option names between camel, kebab and snake case, over ASCII, and the naming of the
    fields of the generated configuration model. */
module Naming {
  import opened Text

  predicate Upper(c: char) { 'A' <= c <= 'Z' }
  predicate Lower(c: char) { 'a' <= c <= 'z' }

  // ---------------------------------------------------------------- as the regular expressions run

  /** How far `[A-Z]+` reaches. */
  function UpperRun(s: string): (n: nat)
    ensures n <= |s| && forall i :: 0 <= i < n ==> Upper(s[i])
    ensures n < |s| ==> !Upper(s[n])
  {
    if s == "" || !Upper(s[0]) then 0 else 1 + UpperRun(s[1..])
  }

  /** Backtracking from length `k`: the longest first group that `[A-Z][a-z]` can follow, or 0. */
  function Backtrack(s: string, k: nat): (g: nat)
    ensures g <= k
    ensures g > 0 ==> g + 1 < |s| && Upper(s[g]) && Lower(s[g + 1])
    ensures g == 0 ==> forall j :: 1 <= j <= k && j + 1 < |s| ==> !(Upper(s[j]) && Lower(s[j + 1]))
  {
    if k == 0 then 0
    else if k + 1 < |s| && Upper(s[k]) && Lower(s[k + 1]) then k
    else Backtrack(s, k - 1)
  }

  /** `re.sub("([A-Z]+)([A-Z][a-z])", "\1_\2", s)`. */
  function SubAcronyms(s: string): string
    decreases |s|
  {
    if s == "" then ""
    else
      var g := Backtrack(s, UpperRun(s));
      if g > 0 then s[..g] + "_" + s[g..g + 2] + SubAcronyms(s[g + 2..]) else [s[0]] + SubAcronyms(s[1..])
  }

  /** `re.sub("([a-z])([A-Z])", "\1_\2", s)`. */
  function SubCamel(s: string): string
    decreases |s|
  {
    if s == "" then ""
    else if |s| > 1 && Lower(s[0]) && Upper(s[1]) then [s[0]] + "_" + [s[1]] + SubCamel(s[2..])
    else [s[0]] + SubCamel(s[1..])
  }

  function Converted(s: string): string { LowerCase(Replace(s, '-', '_')) }

  function ToSnake(value: string): string {
    Converted(SubCamel(SubAcronyms(value)))
  }

  function ToKebab(value: string): string {
    Replace(ToSnake(value), '_', '-')
  }

  // ---------------------------------------------------------------- where underscores go

  const START := '\0'

  /** A word starts at the last capital of an acronym that is followed by a small letter. */
  predicate AcronymEnds(prev: char, s: string) {
    |s| > 1 && Upper(prev) && Upper(s[0]) && Lower(s[1])
  }

  predicate CamelStarts(prev: char, s: string) {
    s != "" && Lower(prev) && Upper(s[0])
  }

  function Tick(b: bool): string { if b then "_" else "" }

  function MarkAcronyms(prev: char, s: string): string
    decreases |s|
  {
    if s == "" then "" else Tick(AcronymEnds(prev, s)) + [s[0]] + MarkAcronyms(s[0], s[1..])
  }

  function MarkCamel(prev: char, s: string): string
    decreases |s|
  {
    if s == "" then "" else Tick(CamelStarts(prev, s)) + [s[0]] + MarkCamel(s[0], s[1..])
  }

  /** One underscore before every word start, judged by the neighbouring characters alone. */
  function Marked(prev: char, s: string): string
    decreases |s|
  {
    if s == "" then ""
    else Tick(AcronymEnds(prev, s) || CamelStarts(prev, s)) + [s[0]] + Marked(s[0], s[1..])
  }

  lemma {:induction false} MarkRun(prev: char, s: string, g: nat)
    requires 0 < g < |s| && (forall i :: 0 <= i <= g ==> Upper(s[i])) && !AcronymEnds(prev, s)
    ensures MarkAcronyms(prev, s) == s[..g] + MarkAcronyms(s[g - 1], s[g..])
    decreases |s|
  {
    if g == 1 {
      assert s[..1] == [s[0]];
    } else {
      MarkRun(s[0], s[1..], g - 1);
      assert s[1..][..g - 1] == s[1..g] && s[1..][g - 1..] == s[g..];
      assert s[..g] == [s[0]] + s[1..g];
    }
  }

  lemma {:induction false} AcronymsAreMarked(prev: char, s: string)
    requires !AcronymEnds(prev, s)
    ensures SubAcronyms(s) == MarkAcronyms(prev, s)
    decreases |s|
  {
    if s != "" {
      var g := Backtrack(s, UpperRun(s));
      if g > 0 {
        MarkRun(prev, s, g);
        MarkPair(s[g - 1], s[g..]);
        assert s[g..][2..] == s[g + 2..] && s[g..][..2] == s[g..g + 2];
        AcronymsAreMarked(s[g + 1], s[g + 2..]);
        Assoc(s[..g], "_" + s[g..g + 2], SubAcronyms(s[g + 2..]));
        Assoc(s[..g], "_", s[g..g + 2]);
      } else {
        AcronymsAreMarked(s[0], s[1..]);
      }
    }
  }

  lemma MarkPair(prev: char, s: string)
    requires AcronymEnds(prev, s)
    ensures MarkAcronyms(prev, s) == "_" + s[..2] + MarkAcronyms(s[1], s[2..])
  {
    assert s[1..][1..] == s[2..];
    assert s[..2] == [s[0]] + [s[1]];
    assert MarkAcronyms(s[0], s[1..]) == [s[1]] + MarkAcronyms(s[1], s[2..]);
  }

  lemma {:induction false} CamelIsMarked(prev: char, s: string)
    requires !CamelStarts(prev, s)
    ensures SubCamel(s) == MarkCamel(prev, s)
    decreases |s|
  {
    if |s| > 1 && Lower(s[0]) && Upper(s[1]) {
      CamelIsMarked(s[1], s[2..]);
      assert s[1..][1..] == s[2..];
      assert MarkCamel(s[0], s[1..]) == "_" + [s[1]] + MarkCamel(s[1], s[2..]);
    } else if s != "" {
      CamelIsMarked(s[0], s[1..]);
    }
  }

  lemma {:induction false} MarksCompose(prev: char, s: string)
    ensures MarkCamel(prev, MarkAcronyms(prev, s)) == Marked(prev, s)
    decreases |s|
  {
    if s != "" {
      MarksCompose(s[0], s[1..]);
      var rest := MarkAcronyms(s[0], s[1..]);
      var t := [s[0]] + rest;
      assert t[1..] == rest;
      if AcronymEnds(prev, s) {
        var u := "_" + [s[0]] + rest;
        assert u[1..] == t;
        assert MarkCamel('_', t) == [s[0]] + MarkCamel(s[0], rest);
      } else {
        assert MarkAcronyms(prev, s) == t;
      }
    }
  }

  /** The two substitutions, with their greedy matching and consumed text, together insert exactly
      one underscore before each word start. */
  lemma SnakeMarksWords(value: string)
    ensures ToSnake(value) == Converted(Marked(START, value))
  {
    AcronymsAreMarked(START, value);
    CamelIsMarked(START, SubAcronyms(value));
    MarksCompose(START, value);
  }

  // ---------------------------------------------------------------- properties

  function Drop(s: string): string {
    if s == "" then "" else (if s[0] == '_' || s[0] == '-' then "" else [s[0]]) + Drop(s[1..])
  }

  lemma {:induction false} DropOfMarked(prev: char, s: string)
    ensures Drop(Marked(prev, s)) == Drop(s)
    decreases |s|
  {
    if s != "" {
      DropOfMarked(s[0], s[1..]);
      var rest := Marked(s[0], s[1..]);
      var t := [s[0]] + rest;
      assert t[1..] == rest;
      assert ("_" + t)[1..] == t;
      assert Marked(prev, s) == t || Marked(prev, s) == "_" + t;
    }
  }

  lemma ConvertedTail(s: string)
    requires s != ""
    ensures var t := Converted(s); t[1..] == Converted(s[1..]) && t[0] == Converted([s[0]])[0]
  {
  }

  lemma {:induction false} DropOfConverted(s: string)
    ensures Drop(Converted(s)) == LowerCase(Drop(s))
  {
    if s != "" {
      DropOfConverted(s[1..]);
      ConvertedTail(s);
    }
  }

  /** Only separators are added or changed: without them the name is the lower-cased input. */
  lemma SnakeOnlyInsertsUnderscores(value: string)
    ensures Drop(ToSnake(value)) == LowerCase(Drop(value))
  {
    SnakeMarksWords(value);
    DropOfMarked(START, value);
    DropOfConverted(Marked(START, value));
  }

  predicate NoCapitals(s: string) {
    forall i :: 0 <= i < |s| ==> !Upper(s[i])
  }

  lemma {:induction false} NothingToMark(prev: char, s: string)
    requires NoCapitals(s)
    ensures Marked(prev, s) == s
    decreases |s|
  {
    if s != "" {
      NothingToMark(s[0], s[1..]);
    }
  }

  lemma SnakeOfLower(value: string)
    requires NoCapitals(value)
    ensures ToSnake(value) == Replace(value, '-', '_')
  {
    SnakeMarksWords(value);
    NothingToMark(START, value);
    assert LowerCase(Replace(value, '-', '_')) == Replace(value, '-', '_');
  }

  lemma SnakeShape(value: string)
    ensures NoCapitals(ToSnake(value)) && '-' !in ToSnake(value)
  {
  }

  /** `to_snake` is idempotent. */
  lemma SnakeIsIdempotent(value: string)
    ensures ToSnake(ToSnake(value)) == ToSnake(value)
  {
    SnakeShape(value);
    SnakeOfLower(ToSnake(value));
    assert Replace(ToSnake(value), '-', '_') == ToSnake(value);
  }

  predicate IsKebab(s: string) { NoCapitals(s) && '_' !in s }

  /** `to_kebab` gets the option name back from its field name exactly if the name has no capital and
      no underscore. */
  lemma KebabInvertsIff(name: string)
    ensures ToKebab(ToSnake(name)) == name <==> IsKebab(name)
  {
    SnakeIsIdempotent(name);
    SnakeShape(name);
    assert NoCapitals(ToKebab(name)) && '_' !in ToKebab(name);
    if IsKebab(name) {
      SnakeOfLower(name);
      assert Replace(Replace(name, '-', '_'), '_', '-') == name;
    }
  }

  /** Names without capitals collide exactly if they agree up to dashes and underscores: kebab names
      never do, "a-b" and "a_b" do. */
  lemma LowerNamesCollideIff(a: string, b: string)
    requires NoCapitals(a) && NoCapitals(b)
    ensures ToSnake(a) == ToSnake(b) <==> Replace(a, '-', '_') == Replace(b, '-', '_')
    ensures IsKebab(a) && IsKebab(b) && ToSnake(a) == ToSnake(b) ==> a == b
  {
    SnakeOfLower(a);
    SnakeOfLower(b);
    KebabInvertsIff(a);
    KebabInvertsIff(b);
  }

  lemma UnderscoreCollides(a: char, b: char)
    requires Lower(a) && Lower(b)
    ensures ToSnake([a, '-', b]) == ToSnake([a, '_', b])
  {
    LowerNamesCollideIff([a, '-', b], [a, '_', b]);
    assert Replace([a, '-', b], '-', '_') == [a, '_', b] == Replace([a, '_', b], '-', '_');
  }

  // ---------------------------------------------------------------- words

  /** The words of a name in lower case: cut at every dash and underscore and before every word start. */
  function WordsFrom(prev: char, s: string): (words: seq<string>)
    ensures |words| >= 1
    decreases |s|
  {
    if s == "" then [""]
    else
      var rest := WordsFrom(s[0], s[1..]);
      if s[0] == '_' || s[0] == '-' then [""] + rest
      else
        var grown := [LowerCase([s[0]]) + rest[0]] + rest[1..];
        if AcronymEnds(prev, s) || CamelStarts(prev, s) then [""] + grown else grown
  }

  function Words(name: string): seq<string> { WordsFrom(START, name) }

  lemma SplitCons(c: char, s: string)
    requires c != '_'
    ensures Split([c] + s, '_') == [[c] + Split(s, '_')[0]] + Split(s, '_')[1..]
  {
    var i := Find(s, '_');
    if i < |s| {
      Halves(s, i);
      Assoc([c], s[..i] + ['_'], s[i + 1..]);
      Assoc([c], s[..i], ['_']);
      SplitFirst([c] + s[..i], s[i + 1..], '_');
    }
  }

  lemma SplitTick(s: string)
    ensures Split("_" + s, '_') == [""] + Split(s, '_')
  {
    assert "" + ['_'] + s == "_" + s;
    SplitFirst("", s, '_');
  }

  lemma ConvertedConcat(a: string, b: string)
    ensures Converted(a + b) == Converted(a) + Converted(b)
  {
  }

  lemma ConvertedMarked(tick: bool, c: char, rest: string)
    ensures Converted(Tick(tick) + [c] + rest) == Tick(tick) + (Converted([c]) + Converted(rest))
  {
  }

  lemma FirstCharacter(c: char, rest: string)
    ensures Split(Converted([c]) + rest, '_') ==
            if c == '_' || c == '-' then [""] + Split(rest, '_')
            else [LowerCase([c]) + Split(rest, '_')[0]] + Split(rest, '_')[1..]
  {
    var head := Converted([c]);
    if c == '_' || c == '-' {
      assert head == "_";
      SplitTick(rest);
    } else {
      assert head == LowerCase([c]) == [head[0]];
      SplitCons(head[0], rest);
    }
  }

  lemma Ticked(tick: bool, s: string)
    ensures Split(Tick(tick) + s, '_') == if tick then [""] + Split(s, '_') else Split(s, '_')
  {
    if tick {
      SplitTick(s);
    } else {
      assert "" + s == s;
    }
  }

  lemma {:induction false} WordsAreParts(prev: char, s: string)
    ensures Split(Converted(Marked(prev, s)), '_') == WordsFrom(prev, s)
    decreases |s|
  {
    if s == "" {
      assert Converted("") == "" && Split("", '_') == [""];
    } else {
      WordsAreParts(s[0], s[1..]);
      var rest := Marked(s[0], s[1..]);
      var tick := AcronymEnds(prev, s) || CamelStarts(prev, s);
      ConvertedMarked(tick, s[0], rest);
      FirstCharacter(s[0], Converted(rest));
      Ticked(tick, Converted([s[0]]) + Converted(rest));
    }
  }

  /** Two names get the same field exactly if they have the same words: "myField", "my-field" and
      "my_field" do, "myfield" does not. */
  lemma NamesCollideIff(a: string, b: string)
    ensures ToSnake(a) == ToSnake(b) <==> Words(a) == Words(b)
  {
    SnakeMarksWords(a);
    SnakeMarksWords(b);
    WordsAreParts(START, a);
    WordsAreParts(START, b);
    JoinOfSplit(ToSnake(a), '_');
    JoinOfSplit(ToSnake(b), '_');
  }

  lemma LastWord(prev: char, c: char)
    requires Lower(c) || Upper(c)
    ensures WordsFrom(prev, [c]) == if Lower(prev) && Upper(c) then ["", LowerCase([c])] else [LowerCase([c])]
  {
    assert [c][1..] == "" && WordsFrom(c, "") == [""];
    assert LowerCase([c]) + "" == LowerCase([c]);
  }

  lemma CamelAndKebabCollide(x: char, y: char)
    requires Lower(x) && Upper(y)
    ensures ToSnake([x, y]) == ToSnake([x, '-', LowerCase([y])[0]])
  {
    var z := LowerCase([y])[0];
    var camel, kebab := [x, y], [x, '-', z];
    assert camel[1..] == [y] && kebab[1..] == ['-', z] && kebab[1..][1..] == [z];
    LastWord(x, y);
    LastWord('-', z);
    assert LowerCase([z]) == [z] == LowerCase([y]);
    assert WordsFrom(x, ['-', z]) == ["", [z]];
    NamesCollideIff(camel, kebab);
  }

  // ---------------------------------------------------------------- fields of the model

  /** An option of the charm's config: its field definition and the required-if groups annotated on it. */
  datatype OptionDef = OptionDef(name: string, field: string, groups: seq<string>)

  function Names(opts: seq<OptionDef>): set<string> {
    set d | d in opts :: d.name
  }

  function Fields(opts: seq<OptionDef>): map<string, string> {
    if opts == [] then map[] else Fields(Front(opts))[ToSnake(Last(opts).name) := Last(opts).field]
  }

  function InGroups(members: map<string, seq<string>>, groups: seq<string>, field: string): map<string, seq<string>> {
    if groups == [] then members
    else
      var before := InGroups(members, Front(groups), field);
      before[Last(groups) := (if Last(groups) in before then before[Last(groups)] else []) + [field]]
  }

  function Groups(opts: seq<OptionDef>): map<string, seq<string>> {
    if opts == [] then map[] else InGroups(Groups(Front(opts)), Last(opts).groups, ToSnake(Last(opts).name))
  }

  /** `to_pydantic_class` up to the call that creates the class; None when an override names no option. */
  method ToPydanticClass(opts: seq<OptionDef>, overrides: set<string>)
      returns (r: Option<(map<string, string>, map<string, seq<string>>)>)
    ensures r.None? <==> !(overrides <= Names(opts))
    ensures r.Some? ==> r.value == (Fields(opts), Groups(opts))
  {
    var unknown := overrides - Names(opts);
    assert unknown == {} <==> overrides <= Names(opts) by {
      assert unknown != {} ==> exists o :: o in unknown;
      assert forall o :: o in overrides && o !in unknown ==> o in Names(opts);
    }
    if unknown != {} {
      return None;
    }
    var fields: map<string, string> := map[];
    var groups: map<string, seq<string>> := map[];
    for i := 0 to |opts|
      invariant fields == Fields(opts[..i]) && groups == Groups(opts[..i])
    {
      assert Front(opts[..i + 1]) == opts[..i];
      var snakeName := ToSnake(opts[i].name);
      ghost var before := groups;
      for j := 0 to |opts[i].groups|
        invariant groups == InGroups(before, opts[i].groups[..j], snakeName)
      {
        var g := opts[i].groups[j];
        assert Front(opts[i].groups[..j + 1]) == opts[i].groups[..j];
        groups := groups[g := (if g in groups then groups[g] else []) + [snakeName]];
      }
      assert opts[i].groups[..|opts[i].groups|] == opts[i].groups;
      fields := fields[snakeName := opts[i].field];
    }
    assert opts[..|opts|] == opts;
    r := Some((fields, groups));
  }

  predicate DistinctFields(opts: seq<OptionDef>) {
    forall i, j :: 0 <= i < j < |opts| ==> ToSnake(opts[i].name) != ToSnake(opts[j].name)
  }

  lemma SizeOfUpdate<K, V>(m: map<K, V>, k: K, v: V)
    ensures |m[k := v]| == if k in m then |m| else |m| + 1
  {
    assert m[k := v].Keys == m.Keys + {k};
    if k in m {
      assert m[k := v].Keys == m.Keys;
    }
  }

  lemma {:induction false} FieldsHold(opts: seq<OptionDef>, i: nat)
    requires i < |opts|
    ensures ToSnake(opts[i].name) in Fields(opts)
  {
    if i < |opts| - 1 {
      FieldsHold(Front(opts), i);
    }
  }

  lemma {:induction false} FieldsBound(opts: seq<OptionDef>)
    ensures |Fields(opts)| <= |opts|
    ensures |Fields(opts)| == |opts| ==> DistinctFields(opts)
  {
    if opts != [] {
      var front, f := Front(opts), ToSnake(Last(opts).name);
      FieldsBound(front);
      SizeOfUpdate(Fields(front), f, Last(opts).field);
      if f !in Fields(front) {
        forall i | 0 <= i < |front| ensures ToSnake(opts[i].name) != f {
          FieldsHold(front, i);
        }
        assert forall i :: 0 <= i < |front| ==> opts[i] == front[i];
      }
    }
  }

  lemma {:induction false} DistinctFieldsKept(opts: seq<OptionDef>, i: nat)
    requires DistinctFields(opts) && i < |opts|
    ensures ToSnake(opts[i].name) in Fields(opts) && Fields(opts)[ToSnake(opts[i].name)] == opts[i].field
  {
    if i < |opts| - 1 {
      DistinctFieldsKept(Front(opts), i);
    }
  }

  lemma {:induction false} DistinctFieldsCount(opts: seq<OptionDef>)
    requires DistinctFields(opts)
    ensures |Fields(opts)| == |opts|
    ensures forall k :: k in Fields(opts) ==> exists i :: 0 <= i < |opts| && ToSnake(opts[i].name) == k
  {
    if opts != [] {
      var front := Front(opts);
      DistinctFieldsCount(front);
      var f := ToSnake(Last(opts).name);
      forall k | k in Fields(opts) ensures exists i :: 0 <= i < |opts| && ToSnake(opts[i].name) == k {
        if k == f {
          assert ToSnake(opts[|opts| - 1].name) == k;
        } else {
          var i :| 0 <= i < |front| && ToSnake(front[i].name) == k;
          assert opts[i] == front[i];
        }
      }
      SizeOfUpdate(Fields(front), f, Last(opts).field);
    }
  }

  predicate DistinctWords(opts: seq<OptionDef>) {
    forall i, j :: 0 <= i < j < |opts| ==> Words(opts[i].name) != Words(opts[j].name)
  }

  /** No option is lost exactly if no two names have the same words, and then each keeps its own field. */
  lemma NoOptionLostIff(opts: seq<OptionDef>)
    ensures |Fields(opts)| == |opts| <==> DistinctWords(opts)
    ensures DistinctWords(opts) ==> forall i :: 0 <= i < |opts| ==>
              ToSnake(opts[i].name) in Fields(opts) && Fields(opts)[ToSnake(opts[i].name)] == opts[i].field
  {
    forall i, j | 0 <= i < j < |opts|
      ensures Words(opts[i].name) == Words(opts[j].name) <==> ToSnake(opts[i].name) == ToSnake(opts[j].name)
    {
      NamesCollideIff(opts[i].name, opts[j].name);
    }
    FieldsBound(opts);
    if DistinctFields(opts) {
      DistinctFieldsCount(opts);
      forall i | 0 <= i < |opts|
        ensures ToSnake(opts[i].name) in Fields(opts) && Fields(opts)[ToSnake(opts[i].name)] == opts[i].field
      {
        DistinctFieldsKept(opts, i);
      }
    }
  }

  /** Distinct kebab names never collide. */
  lemma KebabOptionsAreKept(opts: seq<OptionDef>)
    requires forall i :: 0 <= i < |opts| ==> IsKebab(opts[i].name)
    requires forall i, j :: 0 <= i < j < |opts| ==> opts[i].name != opts[j].name
    ensures |Fields(opts)| == |opts| && DistinctFields(opts)
  {
    forall i, j | 0 <= i < j < |opts| ensures ToSnake(opts[i].name) != ToSnake(opts[j].name) {
      LowerNamesCollideIff(opts[i].name, opts[j].name);
    }
    DistinctFieldsCount(opts);
  }

  /** A group validates exactly the fields of the options annotated with it. */
  lemma {:induction false} GroupsAre(opts: seq<OptionDef>, g: string, f: string)
    ensures g in Groups(opts) && f in Groups(opts)[g] <==>
            exists i :: 0 <= i < |opts| && g in opts[i].groups && ToSnake(opts[i].name) == f
  {
    if opts != [] {
      var front := Front(opts);
      GroupsAre(front, g, f);
      InGroupsIs(Groups(front), Last(opts).groups, ToSnake(Last(opts).name), g, f);
      if exists i :: 0 <= i < |front| && g in front[i].groups && ToSnake(front[i].name) == f {
        var i :| 0 <= i < |front| && g in front[i].groups && ToSnake(front[i].name) == f;
        assert opts[i] == front[i];
      }
      forall i | 0 <= i < |opts| - 1 ensures front[i] == opts[i] {}
    }
  }

  lemma {:induction false} InGroupsIs(members: map<string, seq<string>>, groups: seq<string>, field: string,
                                      g: string, f: string)
    ensures g in InGroups(members, groups, field) && f in InGroups(members, groups, field)[g] <==>
            (g in members && f in members[g]) || (g in groups && f == field)
  {
    if groups != [] {
      InGroupsIs(members, Front(groups), field, g, f);
      assert groups == Front(groups) + [Last(groups)];
    }
  }
}
