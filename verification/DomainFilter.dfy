/** The `--tls-allow` rules: how they are read, and which certificate names they admit. */
module DomainFilter {
  import opened Text
  import opened NetAddr

  // ----- the library's part -----

  /** What Go's `netip` makes of texts, and Unicode lower case beyond ASCII. */
  datatype Library = Library(
    parseAddr: string -> Option<Addr>,
    parsePrefix: string -> Option<Prefix>,
    addrText: Addr -> string,
    lowerOther: char -> char)

  function LowerChar(lib: Library, c: char): char {
    if 'A' <= c <= 'Z' then (c as int + 32) as char
    else if c < '\U{0080}' then c
    else lib.lowerOther(c)
  }

  /** `strings.ToLower`. */
  function ToLower(lib: Library, s: string): (t: string)
    ensures |t| == |s|
    ensures forall i :: 0 <= i < |s| ==> t[i] == LowerChar(lib, s[i])
  {
    seq(|s|, i requires 0 <= i < |s| => LowerChar(lib, s[i]))
  }

  // ----- labels -----

  /** The labels of a name, `strings.Split(name, ".")`. */
  function Labels(name: string): (labels: seq<string>)
    ensures |labels| > 0
  {
    Split(name, '.')
  }

  function Join(labels: seq<string>): string
    requires labels != []
  {
    if |labels| == 1 then labels[0] else labels[0] + "." + Join(labels[1..])
  }

  predicate LetterDigitHyphen(c: char) {
    'a' <= c <= 'z' || 'A' <= c <= 'Z' || '0' <= c <= '9' || c == '-'
  }

  predicate ValidLabel(part: string) {
    && 0 < |part| <= 63 && part[0] != '-' && part[|part| - 1] != '-'
    && forall i :: 0 <= i < |part| ==> LetterDigitHyphen(part[i])
  }

  predicate ContainsAny(s: string, chars: string) {
    exists i :: 0 <= i < |s| && s[i] in chars
  }

  /** The host names that `valid_certificate_name` accepts besides IP addresses. */
  predicate ValidHostName(name: string) {
    && 0 < |name| <= 253 && !ContainsAny(name, " /\\\t\r\n")
    && AllValid(Labels(name))
  }

  /** `valid_certificate_name`. */
  predicate ValidCertificateName(lib: Library, name: string) {
    match lib.parseAddr(name)
    case Some(ip) => ip.zone == ""
    case None => ValidHostName(name)
  }

  /** `valid_dns_name`. */
  predicate ValidDnsName(lib: Library, name: string) {
    && name != "" && |name| <= 253
    && lib.parseAddr(name).None?
    && ValidCertificateName(lib, name)
  }

  /** Cutting at a dot cuts the label list. */
  lemma {:induction false} LabelsConcat(head: string, tail: string)
    ensures Labels(head + "." + tail) == Labels(head) + Labels(tail)
  {
    SplitConcat(head, '.', tail);
  }

  lemma {:induction false} JoinPrepend(c: char, labels: seq<string>)
    requires labels != []
    ensures Join(AddChar(c, labels)) == [c] + Join(labels)
  {
    assert AddChar(c, labels)[1..] == labels[1..];
  }

  /** Splitting and joining again gives the name, so a name is its labels. */
  lemma {:induction false} JoinLabels(name: string)
    ensures Join(Labels(name)) == name
  {
    if name != "" {
      JoinLabels(name[1..]);
      JoinPrepend(name[0], Labels(name[1..]));
      assert Labels(name)[1..] == Labels(name[1..])[if name[0] == '.' then 0 else 1..];
    }
  }

  lemma {:induction false} JoinConcat(xs: seq<string>, ys: seq<string>)
    requires xs != [] && ys != []
    ensures Join(xs + ys) == Join(xs) + "." + Join(ys)
  {
    if |xs| == 1 {
      assert (xs + ys)[1..] == ys;
    } else {
      JoinConcat(xs[1..], ys);
      assert (xs + ys)[1..] == xs[1..] + ys;
    }
  }

  /** The labels of `name` end with those of `tail`, with at least one more before them. */
  predicate ProperlyBelow(name: seq<string>, tail: seq<string>) {
    |name| > |tail| && name[|name| - |tail|..] == tail
  }

  lemma {:induction false} SuffixCutsLabels(name: string, tail: string)
    requires HasSuffix(name, "." + tail)
    ensures Labels(name) == Labels(TrimSuffix(name, "." + tail)) + Labels(tail)
  {
    var head := TrimSuffix(name, "." + tail);
    assert name == head + ("." + tail) == head + "." + tail;
    LabelsConcat(head, tail);
  }

  lemma {:induction false} LabelsMakeSuffix(name: string, tail: string)
    requires ProperlyBelow(Labels(name), Labels(tail))
    ensures HasSuffix(name, "." + tail)
  {
    var labels, below := Labels(name), Labels(tail);
    var before := labels[..|labels| - |below|];
    assert labels == before + below;
    JoinLabels(name);
    JoinLabels(tail);
    JoinConcat(before, below);
    EndsWith(Join(before), "." + tail);
    assert name == Join(before) + ("." + tail);
  }

  lemma {:induction false} EndsWith(head: string, tail: string)
    ensures HasSuffix(head + tail, tail)
  {
  }

  /** A string suffix that starts with a dot is a proper suffix of the label list, and conversely. */
  lemma {:induction false} SuffixIff(name: string, tail: string)
    ensures HasSuffix(name, "." + tail) <==> ProperlyBelow(Labels(name), Labels(tail))
  {
    if HasSuffix(name, "." + tail) {
      SuffixCutsLabels(name, tail);
    }
    if ProperlyBelow(Labels(name), Labels(tail)) {
      LabelsMakeSuffix(name, tail);
    }
  }

  /** A dot in a text shows in the number of its labels. */
  lemma {:induction false} OneLabelIff(text: string)
    ensures |Labels(text)| == 1 <==> '.' !in text
    ensures '.' !in text ==> Labels(text) == [text]
  {
    SplitPlain(text, '.');
  }

  predicate AllValid(labels: seq<string>) {
    forall i :: 0 <= i < |labels| ==> ValidLabel(labels[i])
  }

  predicate PlainLabels(labels: seq<string>) {
    forall i, j :: 0 <= i < |labels| && 0 <= j < |labels[i]| ==> LetterDigitHyphen(labels[i][j])
  }

  lemma {:induction false} PlainPrepend(c: char, labels: seq<string>)
    requires labels != [] && PlainLabels(AddChar(c, labels))
    ensures LetterDigitHyphen(c) && PlainLabels(labels)
  {
    var more := AddChar(c, labels);
    assert more[0][0] == c;
    forall i, j | 0 <= i < |labels| && 0 <= j < |labels[i]| ensures LetterDigitHyphen(labels[i][j]) {
      assert labels[i][j] == if i == 0 then more[0][j + 1] else more[i][j];
    }
  }

  lemma {:induction false} PlainChars(name: string, k: nat)
    requires PlainLabels(Labels(name)) && k < |name|
    ensures name[k] == '.' || LetterDigitHyphen(name[k])
  {
    if name[0] != '.' {
      PlainPrepend(name[0], Labels(name[1..]));
    } else {
      var labels, rest := Labels(name), Labels(name[1..]);
      assert forall i :: 0 <= i < |rest| ==> rest[i] == labels[i + 1];
    }
    if k > 0 {
      PlainChars(name[1..], k - 1);
    }
  }

  /** An accepted host name is made of letters, digits, hyphens and dots alone. */
  lemma {:induction false} HostNameChars(name: string, k: nat)
    requires ValidHostName(name) && k < |name|
    ensures name[k] == '.' || LetterDigitHyphen(name[k])
  {
    PlainChars(name, k);
  }

  // ----- lower case -----

  predicate Ascii(s: string) {
    forall i :: 0 <= i < |s| ==> s[i] < '\U{0080}'
  }

  function LowerLabels(lib: Library, labels: seq<string>): seq<string> {
    seq(|labels|, i requires 0 <= i < |labels| => ToLower(lib, labels[i]))
  }

  lemma {:induction false} LowerDot(lib: Library, labels: seq<string>)
    ensures LowerLabels(lib, [""] + labels) == [""] + LowerLabels(lib, labels)
  {
    assert ToLower(lib, "") == "";
  }

  /** Lower case does not move the dots of an ASCII text. */
  lemma {:induction false} LowerLabelsOf(lib: Library, s: string)
    requires Ascii(s)
    ensures Labels(ToLower(lib, s)) == LowerLabels(lib, Labels(s))
  {
    if s == "" {
      assert LowerLabels(lib, [""]) == [""];
    } else {
      var t, rest := ToLower(lib, s), Labels(s[1..]);
      LowerLabelsOf(lib, s[1..]);
      assert t[1..] == ToLower(lib, s[1..]) && t[0] == LowerChar(lib, s[0]);
      if s[0] == '.' {
        LowerDot(lib, rest);
      } else {
        LowerPrepend(lib, s[0], rest);
      }
    }
  }

  lemma {:induction false} LowerPrepend(lib: Library, c: char, labels: seq<string>)
    requires labels != []
    ensures LowerLabels(lib, AddChar(c, labels)) == AddChar(LowerChar(lib, c), LowerLabels(lib, labels))
  {
    assert ToLower(lib, [c] + labels[0]) == [LowerChar(lib, c)] + ToLower(lib, labels[0]);
  }

  // ----- rules -----

  datatype Kind = Exact | Subdomain | PunycodeLabel | DeepSubdomain | DomainAndSubdomains | SingleLabel

  datatype Rule = Cidr(prefix: Prefix) | Named(kind: Kind, name: string)

  datatype Parsed = Accepted(rule: Rule) | EmptyRule | BareIp | InvalidPattern

  /** The mark that a rule of each kind begins with. */
  function Mark(kind: Kind): string {
    match kind
    case Exact => ""
    case PunycodeLabel => "+*."
    case DeepSubdomain => "**."
    case Subdomain => "+."
    case DomainAndSubdomains => "*."
    case SingleLabel => "?."
  }

  /** The switch of `parse_domain_filter`: the first mark that fits. */
  function KindOf(value: string): (kind: Kind)
    ensures HasPrefix(value, Mark(kind))
  {
    if HasPrefix(value, "+*.") then PunycodeLabel
    else if HasPrefix(value, "**.") then DeepSubdomain
    else if HasPrefix(value, "+.") then Subdomain
    else if HasPrefix(value, "*.") then DomainAndSubdomains
    else if HasPrefix(value, "?.") then SingleLabel
    else Exact
  }

  function ParseNamed(lib: Library, value: string): Parsed {
    var kind := KindOf(value);
    var name := value[|Mark(kind)|..];
    if ContainsAny(name, "*+?") || !ValidDnsName(lib, name) then InvalidPattern
    else Accepted(Named(kind, name))
  }

  /** One round of `parse_domain_filter`. */
  function ParseRule(lib: Library, raw: string): Parsed {
    var value := ToLower(lib, TrimSpace(raw));
    if value == "" then EmptyRule
    else if lib.parsePrefix(value).Some? then Accepted(Cidr(Masked(lib.parsePrefix(value).value)))
    else if lib.parseAddr(value).Some? then BareIp
    else ParseNamed(lib, value)
  }

  /** A mark followed by a valid name. */
  predicate IsMarked(lib: Library, value: string, kind: Kind, name: string) {
    value == Mark(kind) + name && ValidDnsName(lib, name)
  }

  /** What a rule's text says: a prefix, or a marked name that is no prefix and no address. */
  predicate Describes(lib: Library, raw: string, rule: Rule) {
    var value := ToLower(lib, TrimSpace(raw));
    match rule
    case Cidr(p) => value != "" && lib.parsePrefix(value).Some? && p == Masked(lib.parsePrefix(value).value)
    case Named(kind, name) =>
      lib.parsePrefix(value).None? && lib.parseAddr(value).None? && IsMarked(lib, value, kind, name)
  }

  lemma {:induction false} HostNameIsUnmarked(name: string)
    requires ValidHostName(name)
    ensures !ContainsAny(name, "*+?")
    ensures |name| > 0 && name[0] != '*' && name[0] != '+' && name[0] != '?'
  {
    forall i | 0 <= i < |name| ensures name[i] !in "*+?" {
      HostNameChars(name, i);
    }
  }

  lemma {:induction false} PrefixChars(value: string, prefix: string)
    ensures HasPrefix(value, prefix) <==> |prefix| <= |value| && forall i :: 0 <= i < |prefix| ==> value[i] == prefix[i]
  {
  }

  lemma {:induction false} KindOfMarked(kind: Kind, name: string)
    requires |name| > 0 && name[0] != '*' && name[0] != '+' && name[0] != '?'
    ensures KindOf(Mark(kind) + name) == kind
    ensures (Mark(kind) + name)[|Mark(kind)|..] == name
  {
    var value := Mark(kind) + name;
    assert value[|Mark(kind)|] == name[0];
    assert forall i :: 0 <= i < |Mark(kind)| ==> value[i] == Mark(kind)[i];
    PrefixChars(value, "+*.");
    PrefixChars(value, "**.");
    PrefixChars(value, "+.");
    PrefixChars(value, "*.");
    PrefixChars(value, "?.");
    match kind {
      case Exact => assert value[0] == name[0];
      case PunycodeLabel => assert value[0] == '+' && value[1] == '*' && value[2] == '.';
      case DeepSubdomain => assert value[0] == '*' && value[1] == '*' && value[2] == '.';
      case Subdomain => assert value[0] == '+' && value[1] == '.';
      case DomainAndSubdomains => assert value[0] == '*' && value[1] == '.';
      case SingleLabel => assert value[0] == '?' && value[1] == '.';
    }
  }

  lemma {:induction false} MarkedIsNamed(lib: Library, kind: Kind, name: string)
    requires ValidDnsName(lib, name)
    ensures ParseNamed(lib, Mark(kind) + name) == Accepted(Named(kind, name))
  {
    HostNameIsUnmarked(name);
    KindOfMarked(kind, name);
  }

  lemma {:induction false} NamedIsMarked(lib: Library, value: string, kind: Kind, name: string)
    requires ParseNamed(lib, value) == Accepted(Named(kind, name))
    ensures IsMarked(lib, value, kind, name)
  {
    assert value == Mark(kind) + value[|Mark(kind)|..];
  }

  lemma {:induction false} NamedIff(lib: Library, value: string, kind: Kind, name: string)
    ensures value != "" && ParseNamed(lib, value) == Accepted(Named(kind, name)) <==> IsMarked(lib, value, kind, name)
  {
    if IsMarked(lib, value, kind, name) {
      MarkedIsNamed(lib, kind, name);
    }
    if ParseNamed(lib, value) == Accepted(Named(kind, name)) {
      NamedIsMarked(lib, value, kind, name);
    }
  }

  lemma {:induction false} NamedResult(lib: Library, value: string)
    ensures var parsed := ParseNamed(lib, value); parsed == InvalidPattern || (parsed.Accepted? && parsed.rule.Named?)
  {
  }

  /** A rule text is accepted as a rule exactly when it describes that rule: no mark is mistaken for another. */
  lemma {:induction false} ParseRuleIff(lib: Library, raw: string, rule: Rule)
    ensures ParseRule(lib, raw) == Accepted(rule) <==> Describes(lib, raw, rule)
  {
    var value := ToLower(lib, TrimSpace(raw));
    if rule.Named? {
      NamedIff(lib, value, rule.kind, rule.name);
    }
    NamedResult(lib, value);
  }

  /** The rules that a list of texts is read as. */
  predicate ReadAs(lib: Library, values: seq<string>, rules: seq<Rule>) {
    |rules| == |values| && forall i :: 0 <= i < |values| ==> ParseRule(lib, values[i]) == Accepted(rules[i])
  }

  lemma {:induction false} ReadOneMore(lib: Library, values: seq<string>, rules: seq<Rule>, rule: Rule)
    requires |rules| < |values| && ReadAs(lib, values[..|rules|], rules)
    requires ParseRule(lib, values[|rules|]) == Accepted(rule)
    ensures ReadAs(lib, values[..|rules| + 1], rules + [rule])
  {
    var before, after, more := values[..|rules|], values[..|rules| + 1], rules + [rule];
    forall i | 0 <= i < |after| ensures ParseRule(lib, after[i]) == Accepted(more[i]) {
      if i < |rules| {
        assert after[i] == before[i] && more[i] == rules[i];
      } else {
        assert after[i] == values[|rules|] && more[i] == rule;
      }
    }
  }

  /** `parse_domain_filter`: all rules in order, or the first entry that is refused. */
  method ParseDomainFilter(lib: Library, values: seq<string>) returns (rules: seq<Rule>, refused: Option<(nat, Parsed)>)
    ensures refused.None? ==> ReadAs(lib, values, rules)
    ensures refused.Some? ==>
              && refused.value.0 < |values| && !refused.value.1.Accepted?
              && ParseRule(lib, values[refused.value.0]) == refused.value.1
              && exists before :: ReadAs(lib, values[..refused.value.0], before)
  {
    rules := [];
    for n := 0 to |values|
      invariant ReadAs(lib, values[..n], rules)
    {
      var parsed := ParseRule(lib, values[n]);
      if !parsed.Accepted? {
        return [], Some((n, parsed));
      }
      ReadOneMore(lib, values, rules, parsed.rule);
      rules := rules + [parsed.rule];
    }
    assert values[..|values|] == values;
    refused := None;
  }

  // ----- matching -----

  const PUNYCODE: string := "xn--"

  /** The switch of `allows`, on the lower-case name. */
  predicate StringMatch(rule: Rule, name: string) {
    match rule
    case Cidr(_) => false
    case Named(kind, tail) =>
      var prefix := TrimSuffix(name, "." + tail);
      match kind
      case Exact => name == tail
      case Subdomain => name != tail && HasSuffix(name, "." + tail)
      case DeepSubdomain => name != tail && HasSuffix(name, "." + tail)
      case DomainAndSubdomains => name == tail || HasSuffix(name, "." + tail)
      case SingleLabel => |prefix| == 1 && prefix != name
      case PunycodeLabel => prefix != name && '.' !in prefix && HasPrefix(prefix, PUNYCODE) && |prefix| > |PUNYCODE|
  }

  /** Equal but for case. */
  predicate SameText(lib: Library, a: string, b: string) {
    ToLower(lib, a) == ToLower(lib, b)
  }

  /** The last labels of `name` are those of `tail`, but for case. */
  predicate EndsWithLabels(lib: Library, name: seq<string>, tail: seq<string>) {
    |name| >= |tail| && forall i :: 0 <= i < |tail| ==> SameText(lib, name[|name| - |tail| + i], tail[i])
  }

  /** What each kind of rule promises, on label lists. */
  predicate LabelMatch(lib: Library, kind: Kind, name: seq<string>, tail: seq<string>) {
    && EndsWithLabels(lib, name, tail)
    && match kind
       case Exact => |name| == |tail|
       case Subdomain => |name| > |tail|
       case DeepSubdomain => |name| > |tail|
       case DomainAndSubdomains => true
       case SingleLabel => |name| == |tail| + 1 && |name[0]| == 1
       case PunycodeLabel =>
         |name| == |tail| + 1 && |name[0]| > |PUNYCODE| && SameText(lib, name[0][..|PUNYCODE|], PUNYCODE)
  }

  /** Lower case never produces an upper-case ASCII letter. */
  ghost predicate LowerIsLower(lib: Library) {
    forall c: char :: !('A' <= lib.lowerOther(c) <= 'Z')
  }

  predicate NoCapitals(s: string) {
    forall i :: 0 <= i < |s| ==> !('A' <= s[i] <= 'Z')
  }

  lemma {:induction false} LowerFixed(lib: Library, s: string)
    requires Ascii(s) && NoCapitals(s)
    ensures ToLower(lib, s) == s
  {
  }

  lemma {:induction false} LoweredHasNoCapitals(lib: Library, s: string)
    requires LowerIsLower(lib)
    ensures NoCapitals(ToLower(lib, s))
  {
    forall i | 0 <= i < |s| ensures !('A' <= LowerChar(lib, s[i]) <= 'Z') {
      var c := s[i];
      assert !('A' <= lib.lowerOther(c) <= 'Z');
    }
  }

  lemma {:induction false} HostNameIsAscii(name: string)
    requires ValidHostName(name)
    ensures Ascii(name)
  {
    forall k | 0 <= k < |name| ensures name[k] < '\U{0080}' {
      HostNameChars(name, k);
    }
  }

  /** An accepted named rule keeps a valid name that is already in lower case. */
  lemma {:induction false} AcceptedName(lib: Library, raw: string, rule: Rule)
    requires LowerIsLower(lib) && ParseRule(lib, raw) == Accepted(rule) && rule.Named?
    ensures ValidHostName(rule.name) && Ascii(rule.name) && NoCapitals(rule.name)
  {
    ParseRuleIff(lib, raw, rule);
    LoweredHasNoCapitals(lib, TrimSpace(raw));
    HostNameIsAscii(rule.name);
    var value := ToLower(lib, TrimSpace(raw));
    assert forall i :: 0 <= i < |rule.name| ==> rule.name[i] == value[|Mark(rule.kind)| + i];
  }

  /** The rule's switch on strings, in terms of the labels of both. */
  predicate ExactLabelMatch(kind: Kind, name: seq<string>, tail: seq<string>) {
    match kind
    case Exact => name == tail
    case Subdomain => ProperlyBelow(name, tail)
    case DeepSubdomain => ProperlyBelow(name, tail)
    case DomainAndSubdomains => name == tail || ProperlyBelow(name, tail)
    case SingleLabel => ProperlyBelow(name, tail) && |name| == |tail| + 1 && |name[0]| == 1
    case PunycodeLabel =>
      ProperlyBelow(name, tail) && |name| == |tail| + 1 && |name[0]| > |PUNYCODE| && HasPrefix(name[0], PUNYCODE)
  }

  lemma {:induction false} SameLabelsSameName(a: string, b: string)
    ensures Labels(a) == Labels(b) <==> a == b
  {
    JoinLabels(a);
    JoinLabels(b);
  }

  /** The text before the dotted tail, and what the labels say about it. */
  lemma {:induction false} HeadLabels(name: string, tail: string)
    requires AllValid(Labels(name))
    ensures var head := TrimSuffix(name, "." + tail);
            && (head != name <==> ProperlyBelow(Labels(name), Labels(tail)))
            && (head != name ==>
                  && ('.' !in head <==> |Labels(name)| == |Labels(tail)| + 1)
                  && ('.' !in head ==> Labels(name)[0] == head)
                  && (|head| == 1 ==> '.' !in head))
  {
    var head := TrimSuffix(name, "." + tail);
    SuffixIff(name, tail);
    if HasSuffix(name, "." + tail) {
      SuffixCutsLabels(name, tail);
      OneLabelIff(head);
      OneCharHead(head, Labels(tail));
    }
  }

  lemma {:induction false} OneCharHead(head: string, below: seq<string>)
    requires AllValid(Labels(head) + below)
    ensures |head| == 1 ==> '.' !in head
  {
    assert ValidLabel((Labels(head) + below)[0]);
  }

  lemma {:induction false} StringMatchIff(kind: Kind, name: string, tail: string)
    requires AllValid(Labels(name))
    ensures StringMatch(Named(kind, tail), name) <==> ExactLabelMatch(kind, Labels(name), Labels(tail))
  {
    HeadLabels(name, tail);
    SuffixIff(name, tail);
    SameLabelsSameName(name, tail);
  }

  // ----- the same up to case -----

  lemma {:induction false} LowerKeepsValid(lib: Library, name: string)
    requires ValidHostName(name)
    ensures AllValid(LowerLabels(lib, Labels(name)))
  {
    forall part | ValidLabel(part) ensures ValidLabel(ToLower(lib, part)) {
      assert forall i :: 0 <= i < |part| ==> LetterDigitHyphen(part[i]);
    }
  }

  lemma {:induction false} FixedLabels(lib: Library, name: string)
    requires Ascii(name) && NoCapitals(name)
    ensures LowerLabels(lib, Labels(name)) == Labels(name)
  {
    LowerFixed(lib, name);
    LowerLabelsOf(lib, name);
  }

  lemma {:induction false} EndsWithIff(lib: Library, name: seq<string>, tail: seq<string>)
    requires LowerLabels(lib, tail) == tail && |name| >= |tail|
    ensures EndsWithLabels(lib, name, tail) <==> LowerLabels(lib, name)[|name| - |tail|..] == tail
  {
    var lowered := LowerLabels(lib, name);
    var k := |name| - |tail|;
    assert forall i :: 0 <= i < |tail| ==> tail[i] == ToLower(lib, tail[i]);
    assert forall i :: 0 <= i < |tail| ==> lowered[k..][i] == ToLower(lib, name[k + i]);
  }

  lemma {:induction false} PunycodePrefixIff(lib: Library, part: string)
    requires |part| > |PUNYCODE|
    ensures HasPrefix(ToLower(lib, part), PUNYCODE) <==> SameText(lib, part[..|PUNYCODE|], PUNYCODE)
  {
    LowerFixed(lib, PUNYCODE);
    assert ToLower(lib, part)[..|PUNYCODE|] == ToLower(lib, part[..|PUNYCODE|]);
  }

  lemma {:induction false} FoldIff(lib: Library, kind: Kind, name: seq<string>, tail: seq<string>)
    requires LowerLabels(lib, tail) == tail
    ensures ExactLabelMatch(kind, LowerLabels(lib, name), tail) <==> LabelMatch(lib, kind, name, tail)
  {
    if |name| >= |tail| {
      EndsWithIff(lib, name, tail);
      assert |name| == |tail| ==> LowerLabels(lib, name)[0..] == LowerLabels(lib, name);
      if |name| > |tail| && |name[0]| > |PUNYCODE| {
        PunycodePrefixIff(lib, name[0]);
      }
    }
  }

  /** One rule: matching strings is matching labels, case aside. */
  lemma {:induction false} RuleIsLabelwise(lib: Library, raw: string, rule: Rule, name: string)
    requires LowerIsLower(lib) && ParseRule(lib, raw) == Accepted(rule) && ValidHostName(name)
    ensures StringMatch(rule, ToLower(lib, name)) <==>
              rule.Named? && LabelMatch(lib, rule.kind, Labels(name), Labels(rule.name))
  {
    if rule.Named? {
      AcceptedName(lib, raw, rule);
      HostNameIsAscii(name);
      LowerLabelsOf(lib, name);
      LowerKeepsValid(lib, name);
      StringMatchIff(rule.kind, ToLower(lib, name), rule.name);
      FixedLabels(lib, rule.name);
      FoldIff(lib, rule.kind, Labels(name), Labels(rule.name));
    }
  }

  /** `allows`. */
  predicate Admits(lib: Library, rules: seq<Rule>, name: string) {
    || rules == []
    || match lib.parseAddr(name)
       case Some(ip) => exists i :: 0 <= i < |rules| && rules[i].Cidr? && Contains(rules[i].prefix, ip)
       case None => exists i :: 0 <= i < |rules| && StringMatch(rules[i], ToLower(lib, name))
  }

  /** `allows`, with its two scans. */
  method Allows(lib: Library, rules: seq<Rule>, name: string) returns (ok: bool)
    ensures ok <==> Admits(lib, rules, name)
  {
    if |rules| == 0 { return true; }
    var ip := lib.parseAddr(name);
    if ip.Some? {
      for n := 0 to |rules|
        invariant forall i :: 0 <= i < n ==> !(rules[i].Cidr? && Contains(rules[i].prefix, ip.value))
      {
        if rules[n].Cidr? && Contains(rules[n].prefix, ip.value) { return true; }
      }
      return false;
    }
    var lowered := ToLower(lib, name);
    for n := 0 to |rules|
      invariant forall i :: 0 <= i < n ==> !StringMatch(rules[i], lowered)
    {
      if StringMatch(rules[n], lowered) { return true; }
    }
    return false;
  }

  /**
   * The filter is what its rules say on label lists: for every accepted non-empty list of rule
   * texts and every valid certificate name that is no IP address, the name is allowed exactly when
   * some rule matches its labels, whatever the case.
   */
  lemma {:induction false} FilterIsLabelwise(lib: Library, values: seq<string>, rules: seq<Rule>, name: string)
    requires LowerIsLower(lib) && ReadAs(lib, values, rules) && rules != []
    requires ValidCertificateName(lib, name) && lib.parseAddr(name).None?
    ensures Admits(lib, rules, name) <==>
              exists i :: 0 <= i < |rules| && rules[i].Named? &&
                  LabelMatch(lib, rules[i].kind, Labels(name), Labels(rules[i].name))
  {
    forall i | 0 <= i < |rules|
      ensures StringMatch(rules[i], ToLower(lib, name)) <==>
                rules[i].Named? && LabelMatch(lib, rules[i].kind, Labels(name), Labels(rules[i].name))
    {
      RuleIsLabelwise(lib, values[i], rules[i], name);
    }
  }

  // ----- addresses -----

  /** A rule text that is a prefix, with the address in its range. */
  predicate NamesRange(lib: Library, raw: string, ip: Addr) {
    var value := ToLower(lib, TrimSpace(raw));
    value != "" && lib.parsePrefix(value).Some? && InRange(lib.parsePrefix(value).value, ip)
  }

  lemma {:induction false} CidrIff(lib: Library, raw: string, rule: Rule, ip: Addr)
    requires ParseRule(lib, raw) == Accepted(rule)
    ensures rule.Cidr? && Contains(rule.prefix, ip) <==> NamesRange(lib, raw, ip)
  {
    var value := ToLower(lib, TrimSpace(raw));
    NamedResult(lib, value);
    if lib.parsePrefix(value).Some? {
      ContainsIff(lib.parsePrefix(value).value, ip);
    }
  }

  /**
   * The filter on addresses: for every accepted non-empty list of rule texts, a name that is an
   * address is allowed exactly when one of the texts is a prefix whose range holds that address.
   */
  lemma {:induction false} FilterIsByRange(lib: Library, values: seq<string>, rules: seq<Rule>, name: string, ip: Addr)
    requires ReadAs(lib, values, rules) && rules != [] && lib.parseAddr(name) == Some(ip)
    ensures Admits(lib, rules, name) <==> exists i :: 0 <= i < |values| && NamesRange(lib, values[i], ip)
  {
    forall i | 0 <= i < |rules|
      ensures rules[i].Cidr? && Contains(rules[i].prefix, ip) <==> NamesRange(lib, values[i], ip)
    {
      CidrIff(lib, values[i], rules[i], ip);
    }
  }

  // ----- host names, character by character -----

  /**
   * The names of section 2.3.1 of RFC 1035 as relaxed by section 2.1 of RFC 1123, read from the
   * front: `k` characters of the current label have been read, the last of them a hyphen or not.
   */
  predicate Grammar(name: string, k: nat, hyphen: bool) {
    if name == "" then k > 0 && !hyphen
    else if name[0] == '.' then k > 0 && !hyphen && Grammar(name[1..], 0, false)
    else
      && LetterDigitHyphen(name[0]) && k < 63 && (k == 0 ==> name[0] != '-')
      && Grammar(name[1..], k + 1, name[0] == '-')
  }

  /** What has been read of a label so far. */
  predicate Begun(part: string) {
    && |part| <= 63 && (part != "" ==> part[0] != '-')
    && forall i :: 0 <= i < |part| ==> LetterDigitHyphen(part[i])
  }

  function Hyphenated(part: string): bool {
    part != "" && part[|part| - 1] == '-'
  }

  /** A label list whose first label continues `part`. */
  function Continue(part: string, labels: seq<string>): seq<string>
    requires labels != []
  {
    [part + labels[0]] + labels[1..]
  }

  lemma {:induction false} ContinueChar(part: string, c: char, labels: seq<string>)
    requires labels != []
    ensures Continue(part, AddChar(c, labels)) == Continue(part + [c], labels)
  {
    assert part + ([c] + labels[0]) == part + [c] + labels[0];
    assert AddChar(c, labels)[1..] == labels[1..];
  }

  lemma {:induction false} ContinueEnd(part: string, labels: seq<string>)
    requires labels != []
    ensures Continue(part, [""] + labels) == [part] + Continue("", labels)
  {
    assert part + "" == part && "" + labels[0] == labels[0];
    assert ([""] + labels)[1..] == labels == [labels[0]] + labels[1..];
  }

  /** A label that has gone wrong never becomes valid. */
  lemma {:induction false} WrongStaysWrong(part: string, c: char, labels: seq<string>)
    requires labels != [] && Begun(part) && !Begun(part + [c])
    ensures !AllValid(Continue(part + [c], labels))
  {
    var first := part + [c] + labels[0];
    assert Continue(part + [c], labels)[0] == first;
    assert first[|part|] == c && |first| > |part| && (part != "" ==> first[0] == part[0]);
  }

  lemma {:induction false} FirstAndRest(part: string, labels: seq<string>)
    ensures AllValid([part] + labels) <==> ValidLabel(part) && AllValid(labels)
  {
    assert forall i :: 0 <= i < |labels| ==> ([part] + labels)[i + 1] == labels[i];
    assert ([part] + labels)[0] == part;
  }

  lemma {:induction false} GrammarIff(part: string, name: string)
    requires Begun(part)
    ensures AllValid(Continue(part, Labels(name))) <==> Grammar(name, |part|, Hyphenated(part))
    decreases |name|
  {
    if name == "" {
      assert part + "" == part && [""][1..] == [];
      FirstAndRest(part, []);
    } else {
      var c, rest := name[0], Labels(name[1..]);
      if c == '.' {
        ContinueEnd(part, rest);
        FirstAndRest(part, Continue("", rest));
        GrammarIff("", name[1..]);
      } else {
        ContinueChar(part, c, rest);
        if Begun(part + [c]) {
          GrammarIff(part + [c], name[1..]);
          assert LetterDigitHyphen((part + [c])[|part|]);
          assert part == "" ==> (part + [c])[0] == c;
        } else {
          WrongStaysWrong(part, c, rest);
        }
      }
    }
  }

  /**
   * The host names accepted are those of the grammar, of at most 253 characters; the search for
   * blanks adds nothing.
   */
  lemma {:induction false} HostNameIff(name: string)
    ensures ValidHostName(name) <==> 0 < |name| <= 253 && Grammar(name, 0, false)
  {
    var labels := Labels(name);
    assert "" + labels[0] == labels[0] && [labels[0]] + labels[1..] == labels;
    assert Continue("", labels) == labels;
    GrammarIff("", name);
    if AllValid(labels) {
      NoBlanks(name);
    }
  }

  lemma {:induction false} NoBlanks(name: string)
    requires AllValid(Labels(name))
    ensures !ContainsAny(name, " /\\\t\r\n")
  {
    forall k | 0 <= k < |name| ensures name[k] !in " /\\\t\r\n" {
      PlainChars(name, k);
    }
  }
}
