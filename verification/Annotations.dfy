/** The load balancer annotation parser, over ASCII text. The regular expressions are modelled as
    expressions with their own meaning, so that what they accept is proved rather than assumed. */
module Annotations {
  import opened Text

  // ---------------------------------------------------------------- regular expressions

  datatype Rx = Chars(p: char -> bool) | Cat(a: Rx, b: Rx) | Opt(r: Rx) | Star(r: Rx)

  /** `s` is in the language of `r`. */
  predicate In(s: string, r: Rx)
    decreases r, |s|
  {
    match r
    case Chars(p) => |s| == 1 && p(s[0])
    case Cat(a, b) => exists i :: 0 <= i <= |s| && In(s[..i], a) && In(s[i..], b)
    case Opt(a) => s == "" || In(s, a)
    case Star(a) => s == "" || exists i :: 1 <= i <= |s| && In(s[..i], a) && In(s[i..], r)
  }

  /** `re.match("^r$", s)`: in Python `$` also matches before one final newline. */
  predicate Match(s: string, r: Rx) {
    In(s, r) || (s != "" && Last(s) == '\n' && In(Front(s), r))
  }

  predicate Lower(c: char) { 'a' <= c <= 'z' }
  predicate Digit(c: char) { '0' <= c <= '9' }
  predicate Alnum(c: char) { Lower(c) || Digit(c) || 'A' <= c <= 'Z' }

  const DNS_EDGE := (c: char) => Lower(c) || Digit(c)
  const DNS_MIDDLE := (c: char) => c == '-' || Lower(c) || Digit(c)
  const NAME_EDGE := (c: char) => Alnum(c)
  const NAME_MIDDLE := (c: char) => c == '-' || Alnum(c) || c == '_' || c == '.'
  const VALUE_CHAR := (c: char) => Alnum(c) || c == '_' || c == '.' || c == '-'
  const DOT := (c: char) => c == '.'

  /** `e(m*e)?` for character classes e and m. */
  function Edged(e: char -> bool, m: char -> bool): Rx {
    Cat(Chars(e), Opt(Cat(Star(Chars(m)), Chars(e))))
  }

  const DNS1123_SUBDOMAIN := Cat(Edged(DNS_EDGE, DNS_MIDDLE), Star(Cat(Chars(DOT), Edged(DNS_EDGE, DNS_MIDDLE))))
  const QUALIFIED_NAME := Edged(NAME_EDGE, NAME_MIDDLE)
  const ANNOTATION_VALUE := Cat(Chars(VALUE_CHAR), Star(Chars(VALUE_CHAR)))

  // ---------------------------------------------------------------- the parser

  /** Python's ASCII whitespace. */
  predicate Space(c: char) {
    '\t' <= c <= '\r' || '\U{1c}' <= c <= '\U{1f}' || c == ' '
  }

  function LStrip(s: string): string {
    if s != "" && Space(s[0]) then LStrip(s[1..]) else s
  }

  function RStrip(s: string): string {
    if s != "" && Space(Last(s)) then RStrip(Front(s)) else s
  }

  function Strip(s: string): string { RStrip(LStrip(s)) }

  /** `s.rstrip(",")`. */
  function RStripCommas(s: string): string {
    if s != "" && Last(s) == ',' then RStripCommas(Front(s)) else s
  }

  predicate IsQualifiedName(value: string) { QualifiedParts(Split(value, '/')) }

  predicate QualifiedParts(parts: seq<string>)
    requires |parts| >= 1
  {
    if |parts| > 2 then false
    else if |parts| == 2 && (parts[0] == "" || !Match(parts[0], DNS1123_SUBDOMAIN)) then false
    else
      var name := Last(parts);
      name != "" && |name| <= 63 && Match(name, QUALIFIED_NAME)
  }

  predicate Reserved(key: string) {
    StartsWith(key, "kubernetes.io/") || StartsWith(key, "k8s.io/")
  }

  predicate ValidKey(key: string) {
    |key| <= 253 && IsQualifiedName(LowerCase(key)) && !Reserved(key)
  }

  predicate ValidValue(value: string) { Match(value, ANNOTATION_VALUE) }

  /** The dict comprehension: empty pairs are skipped, a pair without "=" raises, and a later pair
      replaces an earlier one with the same key. */
  function Collect(pairs: seq<string>): Option<map<string, string>> {
    if pairs == [] then Some(map[])
    else
      var before := Collect(Front(pairs));
      if before.None? || Last(pairs) == "" then before
      else
        var halves := SplitOnce(Last(pairs), '=');
        if halves.None? then None else Some(before.value[Strip(halves.value.0) := Strip(halves.value.1)])
  }

  predicate AllValid(m: map<string, string>) {
    forall k :: k in m ==> ValidKey(k) && ValidValue(m[k])
  }

  function Pairs(text: string): seq<string> { Split(RStripCommas(Strip(text)), ',') }

  /** None is the source's None: bad syntax, or a key or value that is not allowed. */
  function ParseAnnotations(annotations: Option<string>): Option<map<string, string>> {
    if annotations.None? || annotations.value == "" then Some(map[])
    else
      var parsed := Collect(Pairs(annotations.value));
      if parsed.Some? && AllValid(parsed.value) then parsed else None
  }

  // ---------------------------------------------------------------- what the expressions accept

  predicate Only(s: string, m: char -> bool) {
    forall i :: 0 <= i < |s| ==> m(s[i])
  }

  /** Non-empty, made of `m`, with `e` at both ends. */
  predicate EdgedRule(s: string, e: char -> bool, m: char -> bool) {
    s != "" && e(s[0]) && e(Last(s)) && Only(s, m)
  }

  lemma {:induction false} StarOfChars(s: string, m: char -> bool)
    ensures In(s, Star(Chars(m))) <==> Only(s, m)
    decreases |s|
  {
    if s != "" {
      StarOfChars(s[1..], m);
      if Only(s, m) {
        assert In(s[..1], Chars(m)) && In(s[1..], Star(Chars(m)));
      }
      if In(s, Star(Chars(m))) {
        var i :| 1 <= i <= |s| && In(s[..i], Chars(m)) && In(s[i..], Star(Chars(m)));
        assert i == 1 && s[..1][0] == s[0];
        assert forall i :: 1 <= i < |s| ==> s[i] == s[1..][i - 1];
      }
    }
  }

  lemma CatFirst(s: string, c: char -> bool, r: Rx)
    ensures In(s, Cat(Chars(c), r)) <==> s != "" && c(s[0]) && In(s[1..], r)
  {
    if s != "" && c(s[0]) && In(s[1..], r) {
      assert In(s[..1], Chars(c));
    }
    if In(s, Cat(Chars(c), r)) {
      var i :| 0 <= i <= |s| && In(s[..i], Chars(c)) && In(s[i..], r);
      assert i == 1 && s[..1][0] == s[0];
    }
  }

  lemma CatLast(s: string, r: Rx, c: char -> bool)
    ensures In(s, Cat(r, Chars(c))) <==> s != "" && c(Last(s)) && In(Front(s), r)
  {
    if s != "" && c(Last(s)) && In(Front(s), r) {
      assert In(s[..|s| - 1], r) && In(s[|s| - 1..], Chars(c));
    }
    if In(s, Cat(r, Chars(c))) {
      var i :| 0 <= i <= |s| && In(s[..i], r) && In(s[i..], Chars(c));
      assert i == |s| - 1 && s[i..][0] == s[i];
    }
  }

  lemma EdgedIs(s: string, e: char -> bool, m: char -> bool)
    requires forall c: char :: e(c) ==> m(c)
    ensures In(s, Edged(e, m)) <==> EdgedRule(s, e, m)
  {
    var inner := Cat(Star(Chars(m)), Chars(e));
    CatFirst(s, e, Opt(inner));
    if |s| > 1 {
      var t := s[1..];
      CatLast(t, Star(Chars(m)), e);
      StarOfChars(Front(t), m);
      assert Last(t) == Last(s);
      assert forall i :: 1 <= i < |s| - 1 ==> s[i] == Front(t)[i - 1];
      assert s == [s[0]] + Front(t) + [Last(s)];
    }
  }

  predicate IsLabel(s: string) { EdgedRule(s, DNS_EDGE, DNS_MIDDLE) }

  /** The per-label rule of section 2.1 of RFC 1123, without its length limits. */
  predicate DnsRule(s: string) { AllLabels(Split(s, '.')) }

  predicate AllLabels(parts: seq<string>) {
    forall i :: 0 <= i < |parts| ==> IsLabel(parts[i])
  }

  lemma AllLabelsCons(p: string, parts: seq<string>)
    ensures AllLabels([p] + parts) <==> IsLabel(p) && AllLabels(parts)
  {
    if AllLabels([p] + parts) {
      assert ([p] + parts)[0] == p;
      assert forall i :: 0 <= i < |parts| ==> parts[i] == ([p] + parts)[i + 1];
    }
  }

  /** What may follow a label: nothing, or a dot and more labels. */
  predicate IsTail(rest: string) {
    rest == "" || (rest[0] == '.' && DnsRule(rest[1..]))
  }

  lemma LabelThen(l: string, rest: string)
    requires IsLabel(l) && IsTail(rest)
    ensures DnsRule(l + rest)
  {
    assert '.' !in l;
    if rest == "" {
      assert l + rest == l;
      assert Split(l, '.') == [l];
    } else {
      assert l + rest == l + ['.'] + rest[1..];
      SplitFirst(l, rest[1..], '.');
      AllLabelsCons(l, Split(rest[1..], '.'));
    }
  }

  /** Every dotted name is a label and what may follow one. */
  lemma FirstLabel(s: string) returns (l: string, rest: string)
    requires DnsRule(s)
    ensures s == l + rest && IsLabel(l) && IsTail(rest)
  {
    var j := Find(s, '.');
    l, rest := s[..j], s[j..];
    if j < |s| {
      AllLabelsCons(l, Split(s[j + 1..], '.'));
      assert rest[1..] == s[j + 1..];
    } else {
      assert l == s && Split(s, '.')[0] == s;
    }
  }

  lemma CatJoins(x: string, y: string, a: Rx, b: Rx)
    requires In(x, a) && In(y, b)
    ensures In(x + y, Cat(a, b))
  {
    assert (x + y)[..|x|] == x && (x + y)[|x|..] == y;
  }

  lemma StarJoins(x: string, y: string, a: Rx)
    requires x != "" && In(x, a) && In(y, Star(a))
    ensures In(x + y, Star(a))
  {
    assert (x + y)[..|x|] == x && (x + y)[|x|..] == y;
  }

  lemma CatParts(s: string, a: Rx, b: Rx) returns (x: string, y: string)
    requires In(s, Cat(a, b))
    ensures s == x + y && In(x, a) && In(y, b)
  {
    var i :| 0 <= i <= |s| && In(s[..i], a) && In(s[i..], b);
    x, y := s[..i], s[i..];
  }

  lemma StarParts(s: string, a: Rx) returns (x: string, y: string)
    requires s != "" && In(s, Star(a))
    ensures s == x + y && x != "" && In(x, a) && In(y, Star(a))
  {
    var i :| 1 <= i <= |s| && In(s[..i], a) && In(s[i..], Star(a));
    x, y := s[..i], s[i..];
  }

  const LABEL := Edged(DNS_EDGE, DNS_MIDDLE)
  const DOT_LABEL := Cat(Chars(DOT), LABEL)

  lemma LabelIs(s: string)
    ensures In(s, LABEL) <==> IsLabel(s)
  {
    EdgedIs(s, DNS_EDGE, DNS_MIDDLE);
  }

  /** A dot and a label. */
  lemma DotLabelIs(s: string)
    ensures In(s, DOT_LABEL) <==> s != "" && s[0] == '.' && IsLabel(s[1..])
  {
    CatFirst(s, DOT, LABEL);
    if s != "" {
      LabelIs(s[1..]);
    }
  }

  lemma DotLabelOf(l: string)
    requires IsLabel(l)
    ensures In("." + l, DOT_LABEL)
  {
    assert ("." + l)[1..] == l;
    DotLabelIs("." + l);
  }

  lemma {:induction false} TailIsAccepted(s: string)
    requires IsTail(s)
    ensures In(s, Star(DOT_LABEL))
    decreases |s|
  {
    if s != "" {
      var l, rest := FirstLabel(s[1..]);
      DotLabelOf(l);
      TailIsAccepted(rest);
      StarJoins("." + l, rest, DOT_LABEL);
      assert s == "." + l + rest;
    }
  }

  lemma LabelsConcat(x: string, rest: string)
    requires x != "" && x[0] == '.' && IsLabel(x[1..]) && IsTail(rest)
    ensures IsTail(x + rest)
  {
    LabelThen(x[1..], rest);
    assert (x + rest)[1..] == x[1..] + rest;
  }

  lemma {:induction false} AcceptedIsTail(s: string)
    requires In(s, Star(DOT_LABEL))
    ensures IsTail(s)
    decreases |s|
  {
    if s != "" {
      var x, rest := StarParts(s, DOT_LABEL);
      DotLabelIs(x);
      AcceptedIsTail(rest);
      LabelsConcat(x, rest);
    }
  }

  /** The DNS expression is exactly the per-label rule. */
  lemma DnsExpressionIsTheLabelRule(s: string)
    ensures In(s, DNS1123_SUBDOMAIN) <==> DnsRule(s)
  {
    assert DNS1123_SUBDOMAIN == Cat(LABEL, Star(DOT_LABEL));
    if DnsRule(s) {
      var l, rest := FirstLabel(s);
      LabelIs(l);
      TailIsAccepted(rest);
      CatJoins(l, rest, LABEL, Star(DOT_LABEL));
    }
    if In(s, DNS1123_SUBDOMAIN) {
      var l, rest := CatParts(s, LABEL, Star(DOT_LABEL));
      LabelIs(l);
      AcceptedIsTail(rest);
      LabelThen(l, rest);
    }
  }

  /** As Python matches it: the rule holds of the text, or of the text without one final newline. */
  lemma PrefixAcceptedIff(s: string)
    ensures Match(s, DNS1123_SUBDOMAIN) <==> DnsRule(s) || (s != "" && Last(s) == '\n' && DnsRule(Front(s)))
  {
    DnsExpressionIsTheLabelRule(s);
    if s != "" {
      DnsExpressionIsTheLabelRule(Front(s));
    }
  }

  // ---------------------------------------------------------------- keys and values, without expressions

  predicate NameRule(name: string) {
    |name| <= 63 && EdgedRule(name, NAME_EDGE, NAME_MIDDLE)
  }

  predicate PrefixRule(s: string) {
    DnsRule(s) || (s != "" && Last(s) == '\n' && DnsRule(Front(s)))
  }

  predicate QualifiedRule(value: string) {
    if '/' !in value then NameRule(value)
    else
      var i := Find(value, '/');
      PrefixRule(value[..i]) && NameRule(value[i + 1..])
  }

  predicate KeyRule(key: string) {
    |key| <= 253 && QualifiedRule(LowerCase(key)) && !Reserved(key)
  }

  predicate ValueRule(value: string) {
    value != "" && Only(value, VALUE_CHAR)
  }

  /** The character rules without their classes: a label has small letters, digits and inner dashes. */
  lemma LabelChars(s: string)
    ensures IsLabel(s) <==>
            && s != "" && s[0] != '-' && Last(s) != '-'
            && forall i :: 0 <= i < |s| ==> 'a' <= s[i] <= 'z' || '0' <= s[i] <= '9' || s[i] == '-'
  {
  }

  /** A name has letters and digits, with dashes, underscores and dots inside, and at most 63 characters. */
  lemma NameChars(s: string)
    ensures NameRule(s) <==>
            && 1 <= |s| <= 63 && s[0] !in {'-', '_', '.'} && Last(s) !in {'-', '_', '.'}
            && forall i :: 0 <= i < |s| ==>
                 'a' <= s[i] <= 'z' || 'A' <= s[i] <= 'Z' || '0' <= s[i] <= '9' || s[i] in {'-', '_', '.'}
  {
  }

  /** A value has the characters of a name, in any place and number. */
  lemma ValueCharsAre(s: string)
    ensures ValueRule(s) <==>
            s != "" && forall i :: 0 <= i < |s| ==>
              'a' <= s[i] <= 'z' || 'A' <= s[i] <= 'Z' || '0' <= s[i] <= '9' || s[i] in {'-', '_', '.'}
  {
  }

  /** The reserved keys are those under Kubernetes' own two prefixes. */
  lemma ReservedAre(key: string)
    ensures Reserved(key) <==> exists rest :: key == "kubernetes.io/" + rest || key == "k8s.io/" + rest
  {
    if StartsWith(key, "kubernetes.io/") {
      assert key == "kubernetes.io/" + key[14..];
    } else if StartsWith(key, "k8s.io/") {
      assert key == "k8s.io/" + key[7..];
    }
  }

  predicate Trimmed(s: string) {
    s == "" || (!Space(s[0]) && !Space(Last(s)))
  }

  lemma NameAcceptedIff(name: string)
    requires name == "" || !Space(Last(name))
    ensures name != "" && |name| <= 63 && Match(name, QUALIFIED_NAME) <==> NameRule(name)
  {
    EdgedIs(name, NAME_EDGE, NAME_MIDDLE);
  }

  lemma RuleNeverEmpty(s: string)
    requires DnsRule(s)
    ensures s != "" && !Space(s[0]) && '/' !in s
  {
    var l, rest := FirstLabel(s);
    assert s[0] == l[0] && DNS_EDGE(l[0]);
    DnsChars(s);
    forall i | 0 <= i < |s| ensures s[i] != '/' {
      assert DNS_CHAR(s[i]);
    }
  }

  lemma LabelsNeverEmpty(s: string)
    requires PrefixRule(s)
    ensures s != "" && !Space(s[0]) && '/' !in s
  {
    if DnsRule(s) {
      RuleNeverEmpty(s);
    } else {
      RuleNeverEmpty(Front(s));
      assert s == Front(s) + ['\n'];
    }
  }

  const DNS_CHAR := (c: char) => DNS_MIDDLE(c) || c == '.'

  lemma {:induction false} DnsChars(s: string)
    requires DnsRule(s)
    ensures Only(s, DNS_CHAR)
    decreases |s|
  {
    var l, rest := FirstLabel(s);
    if rest != "" {
      DnsChars(rest[1..]);
      assert rest == ['.'] + rest[1..];
    }
    OnlyConcat(l, rest, DNS_CHAR);
  }

  lemma PrefixedNameIff(prefix: string, name: string)
    requires name == "" || !Space(Last(name))
    ensures QualifiedParts([prefix, name]) <==> PrefixRule(prefix) && NameRule(name)
  {
    PrefixAcceptedIff(prefix);
    NameAcceptedIff(name);
    if PrefixRule(prefix) {
      LabelsNeverEmpty(prefix);
    }
  }

  lemma SlashIsNoName(name: string)
    requires '/' in name
    ensures !NameRule(name)
  {
    var i :| 0 <= i < |name| && name[i] == '/';
    assert !NAME_MIDDLE(name[i]);
  }

  /** With a slash, given how the text splits there. */
  lemma WithSlashIff(value: string, prefix: string, name: string)
    requires '/' !in prefix && value == prefix + ['/'] + name
    requires name == "" || !Space(Last(name))
    ensures IsQualifiedName(value) <==> PrefixRule(prefix) && NameRule(name)
  {
    SplitFirst(prefix, name, '/');
    if '/' in name {
      SlashIsNoName(name);
      assert |Split(name, '/')| >= 2;
    } else {
      assert [prefix] + [name] == [prefix, name];
      PrefixedNameIff(prefix, name);
    }
  }

  lemma NoSlashIff(value: string)
    requires '/' !in value && (value == "" || !Space(Last(value)))
    ensures IsQualifiedName(value) <==> NameRule(value)
  {
    NameAcceptedIff(value);
  }

  lemma QualifiedIff(value: string)
    requires value == "" || !Space(Last(value))
    ensures IsQualifiedName(value) <==> QualifiedRule(value)
  {
    var i := Find(value, '/');
    if i < |value| {
      Halves(value, i);
      assert value[i + 1..] == "" || Last(value[i + 1..]) == Last(value);
      WithSlashIff(value, value[..i], value[i + 1..]);
    } else {
      NoSlashIff(value);
    }
  }

  /** A trimmed key passes the validator exactly if it meets the key rule. */
  lemma KeyAcceptedIff(key: string)
    requires Trimmed(key)
    ensures ValidKey(key) <==> KeyRule(key)
  {
    QualifiedIff(LowerCase(key));
  }

  lemma ValueAcceptedIff(value: string)
    requires Trimmed(value)
    ensures ValidValue(value) <==> ValueRule(value)
  {
    CatFirst(value, VALUE_CHAR, Star(Chars(VALUE_CHAR)));
    if value != "" {
      StarOfChars(value[1..], VALUE_CHAR);
      assert value == [value[0]] + value[1..];
    }
  }

  // ---------------------------------------------------------------- printing and parsing

  lemma {:induction false} LStripPad(p: string, s: string)
    requires Blank(p)
    ensures LStrip(p + s) == LStrip(s)
  {
    if p != "" {
      assert (p + s)[1..] == p[1..] + s && (p + s)[0] == p[0];
      LStripPad(p[1..], s);
    } else {
      assert p + s == s;
    }
  }

  lemma {:induction false} RStripPad(s: string, p: string)
    requires Blank(p)
    ensures RStrip(s + p) == RStrip(s)
  {
    if p != "" {
      assert Front(s + p) == s + Front(p) && Last(s + p) == Last(p);
      RStripPad(s, Front(p));
    } else {
      assert s + p == s;
    }
  }

  predicate Blank(s: string) { forall i :: 0 <= i < |s| ==> Space(s[i]) }

  /** Blanks around a trimmed text are stripped, and nothing else. */
  lemma StripPad(p: string, s: string, q: string)
    requires Blank(p) && Blank(q) && Trimmed(s)
    ensures Strip(p + s + q) == s
  {
    assert p + s + q == p + (s + q);
    LStripPad(p, s + q);
    if s == "" {
      assert s + q == q + "";
      LStripPad(q, "");
    } else {
      assert (s + q)[0] == s[0];
      RStripPad(s, q);
    }
  }

  lemma {:induction false} LStripSuffix(s: string)
    ensures LStrip(s) == "" || !Space(LStrip(s)[0])
  {
    if s != "" && Space(s[0]) {
      LStripSuffix(s[1..]);
    }
  }

  lemma {:induction false} RStripPrefix(s: string)
    ensures RStrip(s) <= s
    ensures RStrip(s) == "" || !Space(Last(RStrip(s)))
  {
    if s != "" && Space(Last(s)) {
      RStripPrefix(Front(s));
    }
  }

  lemma StripTrims(s: string)
    ensures Trimmed(Strip(s))
  {
    LStripSuffix(s);
    RStripPrefix(LStrip(s));
  }

  lemma {:induction false} RStripCommasPad(s: string, commas: string)
    requires s == "" || Last(s) != ','
    requires Only(commas, c => c == ',')
    ensures RStripCommas(s + commas) == s
  {
    if commas != "" {
      assert Front(s + commas) == s + Front(commas) && Last(s + commas) == Last(commas);
      RStripCommasPad(s, Front(commas));
    } else {
      assert s + commas == s;
    }
  }

  /** A printed pair with the blanks around its key and its value. */
  datatype Entry = Entry(left: string, key: string, midLeft: string, midRight: string, value: string, right: string)

  function Item(e: Entry): string {
    (e.left + e.key + e.midLeft) + "=" + (e.midRight + e.value + e.right)
  }

  function Items(es: seq<Entry>): (items: seq<string>)
    ensures |items| == |es|
    ensures forall i :: 0 <= i < |es| ==> items[i] == Item(es[i])
  {
    seq(|es|, i requires 0 <= i < |es| => Item(es[i]))
  }

  /** The table the entries stand for: the last entry of a key wins. */
  function Table(es: seq<Entry>): map<string, string> {
    if es == [] then map[] else Table(Front(es))[Last(es).key := Last(es).value]
  }

  predicate Blanks(e: Entry) {
    Blank(e.left) && Blank(e.midLeft) && Blank(e.midRight) && Blank(e.right)
  }

  /** Keys and values that the rules allow, padded with blanks only. */
  predicate Printable(es: seq<Entry>) {
    forall i :: 0 <= i < |es| ==> Blanks(es[i]) && KeyRule(es[i].key) && ValueRule(es[i].value)
  }

  const KEY_CHAR := (c: char) => NAME_MIDDLE(c) || c == '/' || c == '\n'

  lemma PrefixChars(s: string)
    requires PrefixRule(s)
    ensures Only(s, KEY_CHAR)
  {
    DnsChars(if DnsRule(s) then s else Front(s));
    if !DnsRule(s) {
      assert s == Front(s) + [Last(s)];
    }
  }

  lemma OnlyConcat(a: string, b: string, m: char -> bool)
    requires Only(a, m) && Only(b, m)
    ensures Only(a + b, m)
  {
  }

  lemma QualifiedChars(v: string)
    requires QualifiedRule(v)
    ensures v != "" && Trimmed(v) && Only(v, KEY_CHAR)
  {
    var i := Find(v, '/');
    if i < |v| {
      var prefix, name := v[..i], v[i + 1..];
      LabelsNeverEmpty(prefix);
      PrefixChars(prefix);
      assert Last(name) == Last(v) && prefix[0] == v[0];
      OnlyConcat(prefix, ['/'], KEY_CHAR);
      OnlyConcat(prefix + ['/'], name, KEY_CHAR);
      Halves(v, i);
    }
  }

  lemma KeyChars(key: string)
    requires KeyRule(key)
    ensures key != "" && Trimmed(key) && ',' !in key && '=' !in key
  {
    var low := LowerCase(key);
    QualifiedChars(low);
    forall j | 0 <= j < |key| ensures key[j] != ',' && key[j] != '=' {
      assert KEY_CHAR(low[j]);
    }
  }

  lemma NotInSide(p: string, x: string, q: string, c: char)
    requires Blank(p) && Blank(q) && c !in x && !Space(c)
    ensures c !in p + x + q
  {
  }

  lemma CutAtSign(k: string, v: string)
    requires '=' !in k
    ensures SplitOnce(k + "=" + v, '=') == Some((k, v))
  {
    var item := k + "=" + v;
    assert item[..|k|] == k && item[|k| + 1..] == v;
    FindIs(item, '=', |k|);
  }

  lemma CommaNotInItem(k: string, v: string)
    requires ',' !in k && ',' !in v
    ensures ',' !in k + "=" + v && k + "=" + v != "" && Last(k + "=" + v) != ','
  {
    assert Last(k + "=" + v) in k + "=" + v;
  }

  lemma ItemShape(e: Entry)
    requires Blanks(e) && KeyRule(e.key) && ValueRule(e.value)
    ensures ',' !in Item(e) && Item(e) != "" && Last(Item(e)) != ','
    ensures SplitOnce(Item(e), '=') == Some((e.left + e.key + e.midLeft, e.midRight + e.value + e.right))
    ensures Strip(e.left + e.key + e.midLeft) == e.key && Strip(e.midRight + e.value + e.right) == e.value
  {
    KeyChars(e.key);
    ValueChars(e.value);
    StripPad(e.left, e.key, e.midLeft);
    StripPad(e.midRight, e.value, e.right);
    NotInSide(e.left, e.key, e.midLeft, '=');
    NotInSide(e.left, e.key, e.midLeft, ',');
    NotInSide(e.midRight, e.value, e.right, ',');
    CutAtSign(e.left + e.key + e.midLeft, e.midRight + e.value + e.right);
    CommaNotInItem(e.left + e.key + e.midLeft, e.midRight + e.value + e.right);
  }

  lemma ValueChars(value: string)
    requires ValueRule(value)
    ensures value != "" && Trimmed(value) && ',' !in value
  {
  }

  lemma {:induction false} CollectItems(es: seq<Entry>)
    requires Printable(es)
    ensures Collect(Items(es)) == Some(Table(es))
  {
    if es != [] {
      assert Front(Items(es)) == Items(Front(es));
      CollectItems(Front(es));
      ItemShape(Last(es));
      assert Last(Items(es)) == Item(Last(es));
    }
  }

  lemma EntryIsValid(e: Entry)
    requires KeyRule(e.key) && ValueRule(e.value)
    ensures ValidKey(e.key) && ValidValue(e.value)
  {
    KeyChars(e.key);
    ValueChars(e.value);
    KeyAcceptedIff(e.key);
    ValueAcceptedIff(e.value);
  }

  lemma {:induction false} TableIsValid(es: seq<Entry>)
    requires Printable(es)
    ensures AllValid(Table(es))
  {
    if es != [] {
      TableIsValid(Front(es));
      EntryIsValid(Last(es));
    }
  }

  predicate SameEntry(e: Entry, f: Entry) { e.key == f.key && e.value == f.value }

  lemma {:induction false} TableOfSame(es: seq<Entry>, fs: seq<Entry>)
    requires SameTable(es, fs)
    ensures Table(es) == Table(fs)
  {
    if es != [] {
      TableOfSame(Front(es), Front(fs));
    }
  }

  lemma {:induction false} JoinTail(items: seq<string>)
    requires items != [] && Last(items) != ""
    ensures Join(items, ",") != "" && Last(Join(items, ",")) == Last(Last(items))
  {
    if |items| > 1 {
      JoinTail(items[1..]);
    }
  }

  lemma JoinEnds(items: seq<string>)
    requires items != [] && items[0] != "" && Last(items) != ""
    ensures Join(items, ",") != "" && Join(items, ",")[0] == items[0][0]
    ensures Last(Join(items, ",")) == Last(Last(items))
  {
    JoinTail(items);
    if |items| > 1 {
      assert Join(items, ",") == items[0] + "," + Join(items[1..], ",");
    }
  }

  /** Padding in front of the first pair or behind the last is padding of the whole text. */
  lemma JoinLeft(p: string, item: string, rest: seq<string>)
    ensures Join([p + item] + rest, ",") == p + Join([item] + rest, ",")
  {
    if rest != [] {
      JoinCons(p + item, rest, ",");
      JoinCons(item, rest, ",");
      Assoc(p, item, ",");
      Assoc(p, item + ",", Join(rest, ","));
    }
  }

  lemma {:induction false} JoinRight(items: seq<string>, item: string, p: string)
    ensures Join(items + [item + p], ",") == Join(items + [item], ",") + p
  {
    if items != [] {
      assert items + [item + p] == [items[0]] + (items[1..] + [item + p]);
      assert items + [item] == [items[0]] + (items[1..] + [item]);
      JoinRight(items[1..], item, p);
      JoinCons(items[0], items[1..] + [item + p], ",");
      JoinCons(items[0], items[1..] + [item], ",");
      Assoc(items[0] + ",", Join(items[1..] + [item], ","), p);
    }
  }

  predicate Commas(s: string) { Only(s, c => c == ',') }

  lemma FirstOfSide(x: string, q: string, rest: string)
    requires x != ""
    ensures ("" + x + q) + rest != "" && (("" + x + q) + rest)[0] == x[0]
  {
  }

  lemma LastOfSide(front: string, p: string, x: string)
    requires x != ""
    ensures front + (p + x + "") != "" && Last(front + (p + x + "")) == Last(x)
  {
  }

  lemma ItemEnds(e: Entry)
    requires Blanks(e) && KeyRule(e.key) && ValueRule(e.value)
    ensures Item(e) != "" && Last(Item(e)) != ','
    ensures e.left == "" ==> !Space(Item(e)[0])
    ensures e.right == "" ==> !Space(Last(Item(e)))
  {
    KeyChars(e.key);
    ValueChars(e.value);
    ItemShape(e);
    var k, v := e.left + e.key + e.midLeft, e.midRight + e.value + e.right;
    if e.left == "" {
      Assoc(k, "=", v);
      FirstOfSide(e.key, e.midLeft, "=" + v);
    }
    if e.right == "" {
      LastOfSide(k + "=", e.midRight, e.value);
    }
  }

  lemma BodyEnds(es: seq<Entry>)
    requires Printable(es) && es != []
    ensures var body := Join(Items(es), ",");
            && body != "" && Last(body) != ','
            && (es[0].left == "" ==> !Space(body[0]))
            && (Last(es).right == "" ==> !Space(Last(body)))
  {
    ItemEnds(es[0]);
    ItemEnds(Last(es));
    JoinEnds(Items(es));
  }

  /** Text with a good first character, ended by a good last one or by commas. */
  lemma TrimmedWithCommas(body: string, commas: string)
    requires Commas(commas) && body != "" && !Space(body[0])
    requires commas != "" || !Space(Last(body))
    ensures Trimmed(body + commas)
  {
    assert (body + commas)[0] == body[0];
    assert Last(body + commas) == if commas == "" then Last(body) else Last(commas);
  }

  lemma ItemsAreFree(es: seq<Entry>)
    requires Printable(es)
    ensures forall p :: p in Items(es) ==> ',' !in p
  {
    forall i | 0 <= i < |es| ensures ',' !in Items(es)[i] {
      ItemShape(es[i]);
    }
  }

  /** Trimmed print: the pairs come back from the split. */
  lemma PairsOfTrimmed(p: string, es: seq<Entry>, commas: string, q: string)
    requires Blank(p) && Blank(q) && Commas(commas) && Printable(es) && es != []
    requires es[0].left == "" && (Last(es).right == "" || commas != "")
    ensures Pairs(p + (Join(Items(es), ",") + commas) + q) == Items(es)
  {
    var body := Join(Items(es), ",");
    BodyEnds(es);
    TrimmedWithCommas(body, commas);
    StripPad(p, body + commas, q);
    RStripCommasPad(body, commas);
    ItemsAreFree(es);
    SplitOfJoin(Items(es), ',');
  }

  predicate SameTable(es: seq<Entry>, fs: seq<Entry>) {
    |es| == |fs| && forall i :: 0 <= i < |es| ==> SameEntry(es[i], fs[i])
  }

  lemma Regroup(p: string, left: string, body: string, right: string, q: string)
    ensures p + (left + body) + q == (p + left) + body + q
    ensures p + (body + right) + q == p + body + (right + q)
  {
  }

  function RightTrimmed(es: seq<Entry>): seq<Entry>
    requires es != []
  {
    es[|es| - 1 := Last(es).(right := "")]
  }

  lemma RightTrimmedPrints(es: seq<Entry>)
    requires es != [] && Printable(es)
    ensures var fs := RightTrimmed(es);
            Printable(fs) && SameTable(es, fs) && fs[0].left == es[0].left && Last(fs).right == ""
  {
    var fs, n := RightTrimmed(es), |es| - 1;
    forall i | 0 <= i < |fs| ensures Blanks(fs[i]) && SameEntry(es[i], fs[i]) {
      assert fs[i] == if i == n then es[n].(right := "") else es[i];
      assert Blanks(es[i]);
    }
    forall i | 0 <= i < |fs| ensures KeyRule(fs[i].key) && ValueRule(fs[i].value) {
      assert SameEntry(es[i], fs[i]);
    }
  }

  lemma PairsOfLeftTrimmed(p: string, es: seq<Entry>, commas: string, q: string) returns (fs: seq<Entry>)
    requires Blank(p) && Blank(q) && Commas(commas) && Printable(es) && es != [] && es[0].left == ""
    ensures Printable(fs) && SameTable(es, fs)
    ensures Pairs(p + (Join(Items(es), ",") + commas) + q) == Items(fs)
  {
    if commas != "" {
      fs := es;
      PairsOfTrimmed(p, fs, commas, q);
    } else {
      fs := RightTrimmed(es);
      RightTrimmedPrints(es);
      TrimLast(es);
      var body, right := Join(Items(fs), ","), Last(es).right;
      BlankConcat(right, q);
      PairsOfTrimmed(p, fs, "", right + q);
      MovePadding(p, body, right, q);
    }
  }

  lemma MovePadding(p: string, body: string, right: string, q: string)
    ensures p + ((body + right) + "") + q == p + (body + "") + (right + q)
  {
    assert (body + right) + "" == body + right && body + "" == body;
    Regroup(p, "", body, right, q);
  }

  lemma BlankConcat(p: string, q: string)
    requires Blank(p) && Blank(q)
    ensures Blank(p + q)
  {
  }

  lemma PairsOfPrinted(p: string, es: seq<Entry>, commas: string, q: string) returns (fs: seq<Entry>)
    requires Blank(p) && Blank(q) && Commas(commas) && Printable(es) && es != []
    ensures Printable(fs) && SameTable(es, fs)
    ensures Pairs(p + (Join(Items(es), ",") + commas) + q) == Items(fs)
  {
    var left := es[0].left;
    var gs := es[0 := es[0].(left := "")];
    TrimFirst(es);
    Assoc(left, Join(Items(gs), ","), commas);
    Regroup(p, left, Join(Items(gs), ",") + commas, "", q);
    fs := PairsOfLeftTrimmed(p + left, gs, commas, q);
  }

  lemma ItemsCons(e: Entry, es: seq<Entry>)
    ensures Items([e] + es) == [Item(e)] + Items(es)
  {
  }

  lemma ItemLeft(e: Entry)
    ensures Item(e) == e.left + Item(e.(left := ""))
  {
    assert e.left + e.key + e.midLeft == e.left + ("" + e.key + e.midLeft);
  }

  lemma TrimFirst(es: seq<Entry>)
    requires es != []
    ensures Join(Items(es), ",") == es[0].left + Join(Items(es[0 := es[0].(left := "")]), ",")
  {
    var e, rest := es[0].(left := ""), es[1..];
    ItemLeft(es[0]);
    assert es == [es[0]] + rest && es[0 := e] == [e] + rest;
    ItemsCons(es[0], rest);
    ItemsCons(e, rest);
    JoinLeft(es[0].left, Item(e), Items(rest));
  }

  lemma TrimLast(es: seq<Entry>)
    requires es != []
    ensures Join(Items(es), ",") == Join(Items(RightTrimmed(es)), ",") + Last(es).right
  {
    var e := Last(es).(right := "");
    assert Item(Last(es)) == Item(e) + Last(es).right;
    assert Items(es) == Items(Front(es)) + [Item(e) + Last(es).right];
    assert Items(RightTrimmed(es)) == Items(Front(es)) + [Item(e)];
    JoinRight(Items(Front(es)), Item(e), Last(es).right);
  }

  /** The table is read back from any print of it: any order, any blanks around keys, values and the
      whole text, any trailing commas. With repeated keys the last one counts. */
  lemma PrintThenParse(p: string, es: seq<Entry>, commas: string, q: string)
    requires Blank(p) && Blank(q) && Commas(commas) && Printable(es)
    ensures ParseAnnotations(Some(p + (Join(Items(es), ",") + commas) + q)) == Some(Table(es))
  {
    if es == [] {
      assert Join(Items(es), ",") + commas == commas;
      NothingButCommas(p, commas, q);
    } else {
      var fs := PairsOfPrinted(p, es, commas, q);
      CollectItems(fs);
      TableIsValid(fs);
      TableOfSame(es, fs);
      BodyEnds(es);
    }
  }

  lemma NothingButCommas(p: string, commas: string, q: string)
    requires Blank(p) && Blank(q) && Commas(commas)
    ensures Collect(Pairs(p + commas + q)) == Some(map[])
  {
    StripPad(p, commas, q);
    assert "" + commas == commas;
    RStripCommasPad("", commas);
    CollectNothing();
  }

  lemma CollectNothing()
    ensures Collect(Split("", ',')) == Some(map[])
  {
    assert Split("", ',') == [""];
    assert Front([""]) == [] && Last([""]) == "";
  }

  // ---------------------------------------------------------------- what is accepted

  predicate Legal(m: map<string, string>) {
    forall k :: k in m ==> KeyRule(k) && ValueRule(m[k])
  }

  lemma {:induction false} CollectTrims(pairs: seq<string>)
    requires Collect(pairs).Some?
    ensures var m := Collect(pairs).value; forall k :: k in m ==> Trimmed(k) && Trimmed(m[k])
  {
    if pairs != [] {
      CollectTrims(Front(pairs));
      if Last(pairs) != "" {
        var halves := SplitOnce(Last(pairs), '=').value;
        StripTrims(halves.0);
        StripTrims(halves.1);
      }
    }
  }

  /** Whatever is accepted satisfies the key and value rules. */
  lemma AcceptedIsLegal(annotations: Option<string>)
    requires ParseAnnotations(annotations).Some?
    ensures Legal(ParseAnnotations(annotations).value)
  {
    if annotations.Some? && annotations.value != "" {
      var pairs := Pairs(annotations.value);
      CollectTrims(pairs);
      ValidIffLegal(Collect(pairs).value);
    }
  }

  /** `es` prints `m`: each key once, in any order. */
  predicate Prints(es: seq<Entry>, m: map<string, string>) {
    && (forall i :: 0 <= i < |es| ==> Blanks(es[i]) && es[i].key in m && m[es[i].key] == es[i].value)
    && (forall k :: k in m ==> exists i :: 0 <= i < |es| && es[i].key == k)
    && (forall i, j :: 0 <= i < j < |es| ==> es[i].key != es[j].key)
  }

  lemma PrintsOneLess(es: seq<Entry>, m: map<string, string>)
    requires es != [] && Prints(es, m)
    ensures Prints(Front(es), m - {Last(es).key})
  {
    var front, k := Front(es), Last(es).key;
    forall l | l in m - {k} ensures exists i :: 0 <= i < |front| && front[i].key == l {
      var i :| 0 <= i < |es| && es[i].key == l;
      assert front[i].key == l;
    }
    forall i | 0 <= i < |front| ensures front[i].key in m - {k} {
      assert es[i].key != es[|es| - 1].key;
    }
  }

  lemma {:induction false} TableOfPrints(es: seq<Entry>, m: map<string, string>)
    requires Prints(es, m)
    ensures Table(es) == m
  {
    if es != [] {
      var k := Last(es).key;
      PrintsOneLess(es, m);
      TableOfPrints(Front(es), m - {k});
      assert (m - {k})[k := m[k]] == m;
    }
  }

  /** Any legal table, printed in any order and padding, parses back to itself. */
  lemma RoundTrip(p: string, es: seq<Entry>, commas: string, q: string, m: map<string, string>)
    requires Blank(p) && Blank(q) && Commas(commas) && Legal(m) && Prints(es, m)
    ensures ParseAnnotations(Some(p + (Join(Items(es), ",") + commas) + q)) == Some(m)
  {
    PrintThenParse(p, es, commas, q);
    TableOfPrints(es, m);
  }

  /** An accepted table is a fixpoint of print-then-parse, and so the parser's results are exactly
      the legal tables. */
  lemma AcceptedIsFixpoint(annotations: Option<string>, es: seq<Entry>)
    requires ParseAnnotations(annotations).Some?
    requires Prints(es, ParseAnnotations(annotations).value)
    ensures ParseAnnotations(Some(Join(Items(es), ","))) == ParseAnnotations(annotations)
  {
    AcceptedIsLegal(annotations);
    RoundTrip("", es, "", "", ParseAnnotations(annotations).value);
    NoPadding(Join(Items(es), ","));
  }

  lemma NoPadding(text: string)
    ensures "" + (text + "") + "" == text
  {
  }

  lemma PrintsOneMore(es: seq<Entry>, m: map<string, string>, k: string)
    requires k in m && Prints(es, m - {k})
    ensures Prints(es + [Entry("", k, "", "", m[k], "")], m)
  {
    var fs := es + [Entry("", k, "", "", m[k], "")];
    forall l | l in m ensures exists i :: 0 <= i < |fs| && fs[i].key == l {
      if l == k {
        assert fs[|es|].key == k;
      } else {
        assert l in m - {k};
        var i :| 0 <= i < |es| && es[i].key == l;
        assert fs[i].key == l;
      }
    }
  }

  /** Every table has a print. */
  lemma {:induction false} APrintExists(m: map<string, string>) returns (es: seq<Entry>)
    ensures Prints(es, m)
    decreases |m|
  {
    if m == map[] {
      es := [];
    } else {
      var k :| k in m;
      var before := APrintExists(m - {k});
      PrintsOneMore(before, m, k);
      es := before + [Entry("", k, "", "", m[k], "")];
    }
  }

  lemma LegalIsParsed(m: map<string, string>) returns (text: string)
    requires Legal(m)
    ensures ParseAnnotations(Some(text)) == Some(m)
  {
    var es := APrintExists(m);
    RoundTrip("", es, "", "", m);
    text := "" + (Join(Items(es), ",") + "") + "";
  }

  lemma LegalIffParsed(m: map<string, string>)
    ensures Legal(m) <==> exists text :: ParseAnnotations(Some(text)) == Some(m)
  {
    if Legal(m) {
      var text := LegalIsParsed(m);
    }
    forall text | ParseAnnotations(Some(text)) == Some(m) ensures Legal(m) {
      AcceptedIsLegal(Some(text));
    }
  }

  predicate IsPair(s: string) { '=' in s }
  function KeyOf(s: string): string { Strip(s[..Find(s, '=')]) }
  function ValueOf(s: string): string requires IsPair(s) { Strip(s[Find(s, '=') + 1..]) }

  /** No later pair has the key of pair `i`. */
  predicate Counts(pairs: seq<string>, i: nat)
    requires i < |pairs|
  {
    IsPair(pairs[i]) && forall j :: i < j < |pairs| && IsPair(pairs[j]) ==> KeyOf(pairs[j]) != KeyOf(pairs[i])
  }

  predicate Shaped(pairs: seq<string>) {
    forall i :: 0 <= i < |pairs| && pairs[i] != "" ==> IsPair(pairs[i])
  }

  predicate Maps(m: map<string, string>, k: string, v: string) { k in m && m[k] == v }

  predicate Holds(pairs: seq<string>, m: map<string, string>) {
    && (forall i :: 0 <= i < |pairs| && Counts(pairs, i) ==> Maps(m, KeyOf(pairs[i]), ValueOf(pairs[i])))
    && (forall k :: k in m ==> exists i :: 0 <= i < |pairs| && Counts(pairs, i) && KeyOf(pairs[i]) == k)
  }

  lemma ShapedGrows(front: seq<string>, s: string)
    ensures Shaped(front + [s]) <==> Shaped(front) && (s != "" ==> IsPair(s))
  {
    var pairs := front + [s];
    assert pairs[|front|] == s && forall i :: 0 <= i < |front| ==> pairs[i] == front[i];
  }

  lemma {:induction false} CollectIs(pairs: seq<string>)
    ensures Collect(pairs).Some? <==> Shaped(pairs)
    ensures Shaped(pairs) ==> Holds(pairs, Collect(pairs).value)
  {
    if pairs != [] {
      var front, s := Front(pairs), Last(pairs);
      CollectIs(front);
      assert pairs == front + [s];
      ShapedGrows(front, s);
      if Shaped(pairs) {
        CollectGrows(front, s);
      }
    }
  }

  lemma CountsGrows(front: seq<string>, s: string, i: nat)
    requires i < |front|
    ensures (front + [s])[i] == front[i]
    ensures Counts(front + [s], i) <==>
              Counts(front, i) && (IsPair(s) && IsPair(front[i]) ==> KeyOf(s) != KeyOf(front[i]))
  {
    var pairs := front + [s];
    assert forall j :: i < j < |front| ==> pairs[j] == front[j];
    assert pairs[|front|] == s;
  }

  lemma CollectGrows(front: seq<string>, s: string)
    requires Collect(front).Some? && Holds(front, Collect(front).value) && (s != "" ==> IsPair(s))
    ensures Collect(front + [s]).Some? && Holds(front + [s], Collect(front + [s]).value)
  {
    var pairs := front + [s];
    var before := Collect(front).value;
    assert Front(pairs) == front;
    var m := Collect(pairs).value;
    assert m == if IsPair(s) then before[KeyOf(s) := ValueOf(s)] else before;
    forall i | 0 <= i < |pairs| && Counts(pairs, i) ensures Maps(m, KeyOf(pairs[i]), ValueOf(pairs[i])) {
      if i < |front| {
        CountsGrows(front, s, i);
      }
    }
    forall k | k in m ensures exists i :: 0 <= i < |pairs| && Counts(pairs, i) && KeyOf(pairs[i]) == k {
      if IsPair(s) && k == KeyOf(s) {
        assert Counts(pairs, |front|);
      } else {
        var i :| 0 <= i < |front| && Counts(front, i) && KeyOf(front[i]) == k;
        CountsGrows(front, s, i);
      }
    }
  }

  lemma ValidIffLegal(m: map<string, string>)
    requires forall k :: k in m ==> Trimmed(k) && Trimmed(m[k])
    ensures AllValid(m) <==> Legal(m)
  {
    forall k | k in m
      ensures ValidKey(k) <==> KeyRule(k)
      ensures ValidValue(m[k]) <==> ValueRule(m[k])
    {
      KeyAcceptedIff(k);
      ValueAcceptedIff(m[k]);
    }
  }

  /** The last pair of each key meets the rules. */
  predicate LastOnesLegal(pairs: seq<string>) {
    forall i :: 0 <= i < |pairs| && Counts(pairs, i) ==> KeyRule(KeyOf(pairs[i])) && ValueRule(ValueOf(pairs[i]))
  }

  lemma LegalIffLastOnes(pairs: seq<string>, m: map<string, string>)
    requires Holds(pairs, m)
    ensures Legal(m) <==> LastOnesLegal(pairs)
  {
    if LastOnesLegal(pairs) {
      forall k | k in m ensures KeyRule(k) && ValueRule(m[k]) {
        var i :| 0 <= i < |pairs| && Counts(pairs, i) && KeyOf(pairs[i]) == k;
      }
    }
  }

  /** Exactly what is accepted: every non-empty pair has "=", and each key's last pair meets the rules. */
  lemma AcceptedIff(text: string)
    requires text != ""
    ensures ParseAnnotations(Some(text)).Some? <==> Shaped(Pairs(text)) && LastOnesLegal(Pairs(text))
  {
    var pairs := Pairs(text);
    CollectIs(pairs);
    if Shaped(pairs) {
      CollectTrims(pairs);
      ValidIffLegal(Collect(pairs).value);
      LegalIffLastOnes(pairs, Collect(pairs).value);
    }
  }

  /** A key may hold a newline before its slash, because of how `$` matches. */
  lemma NewlineBeforeSlashIsAccepted(c: char, d: char)
    requires Lower(c) && Lower(d)
    ensures ValidKey([c] + ['\n'] + ['/'] + [d])
  {
    var key := [c] + ['\n'] + ['/'] + [d];
    assert LowerCase(key) == key;
    PrefixWithNewline(c);
    QualifiedPair([c] + ['\n'], [d]);
    KeyAcceptedIff(key);
  }

  lemma PrefixWithNewline(c: char)
    requires Lower(c)
    ensures PrefixRule([c] + ['\n'])
  {
    LabelThen([c], "");
    assert [c] + "" == [c];
    assert Front([c] + ['\n']) == [c];
  }

  lemma QualifiedPair(prefix: string, name: string)
    requires '/' !in prefix && PrefixRule(prefix) && NameRule(name)
    ensures QualifiedRule(prefix + ['/'] + name)
  {
    var all := prefix + ['/'] + name;
    assert all[..|prefix|] == prefix && all[|prefix| + 1..] == name;
    FindIs(all, '/', |prefix|);
  }
}
