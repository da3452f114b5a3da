/** Gadget kinds, the `name[.submode]` notation, and the gadget sequence read at start-up. */
module GadgetSpec {
  import opened Text

  datatype Gadget = Rndis | Adb {
    function Name(): string {
      match this
      case Rndis => "rndis"
      case Adb => "adb"
    }

    /** Submodes run over 0..MaxSubmode(): RNDIS has gateway 0 and client 1, ADB only 0. */
    function MaxSubmode(): nat {
      match this
      case Rndis => 1
      case Adb => 0
    }
  }

  datatype Branch = GatewayMode | ClientMode | UnknownSubmode

  /** The dispatch at the end of the RNDIS `enable`. */
  function RndisBranch(submode: int): Branch {
    if submode == 0 then GatewayMode
    else if submode == 1 then ClientMode
    else UnknownSubmode
  }

  datatype Spec = Spec(name: string, submode: nat)

  /** `parse_gadget_spec`: the text before the first dot names the gadget, the rest is its submode. */
  function Parse(spec: string): Option<Spec> {
    var dot := IndexOf(spec, '.');
    if dot == 0 then None
    else if dot == |spec| then Some(Spec(spec, 0))
    else
      match Atoi(spec[dot + 1..])
      case None => None
      case Some(v) => if v < 0 then None else Some(Spec(spec[..dot], v))
  }

  /** The accepted texts: a dot-free name, alone or followed by a dot and a number that is not negative. */
  ghost predicate Specifies(spec: string, name: string, submode: nat) {
    && name != "" && '.' !in name
    && ((spec == name && submode == 0) || exists text :: spec == name + "." + text && Atoi(text) == Some(submode))
  }

  lemma {:induction false} ParseOfDotted(name: string, text: string)
    requires '.' !in name && name != ""
    ensures var spec := name + "." + text;
            && IndexOf(spec, '.') == |name| < |spec|
            && spec[..|name|] == name && spec[|name| + 1..] == text
  {
    IndexOfSplit(name, '.', text);
  }

  lemma {:induction false} CutAtDot(spec: string)
    ensures var dot := IndexOf(spec, '.');
            && '.' !in spec[..dot]
            && (dot == |spec| ==> spec[..dot] == spec)
            && (dot < |spec| ==> spec == spec[..dot] + "." + spec[dot + 1..])
  {
  }

  lemma {:induction false} SpecifiesDotted(name: string, text: string, submode: nat)
    requires name != "" && '.' !in name && Atoi(text) == Some(submode)
    ensures Specifies(name + "." + text, name, submode)
  {
  }

  lemma {:induction false} ParsedSpecifies(spec: string, name: string, submode: nat)
    requires Parse(spec) == Some(Spec(name, submode))
    ensures Specifies(spec, name, submode)
  {
    CutAtDot(spec);
    var dot := IndexOf(spec, '.');
    if dot < |spec| {
      SpecifiesDotted(name, spec[dot + 1..], submode);
    }
  }

  lemma {:induction false} SpecifiedParses(spec: string, name: string, submode: nat)
    requires Specifies(spec, name, submode)
    ensures Parse(spec) == Some(Spec(name, submode))
  {
    if !(spec == name && submode == 0) {
      var text :| spec == name + "." + text && Atoi(text) == Some(submode);
      ParseOfDotted(name, text);
    }
  }

  /** A text is read as a gadget and submode exactly when it specifies them. */
  lemma {:induction false} ParseIff(spec: string, name: string, submode: nat)
    ensures Parse(spec) == Some(Spec(name, submode)) <==> Specifies(spec, name, submode)
  {
    if Parse(spec) == Some(Spec(name, submode)) {
      ParsedSpecifies(spec, name, submode);
    }
    if Specifies(spec, name, submode) {
      SpecifiedParses(spec, name, submode);
    }
  }

  /** What an IPC query prints for a gadget. */
  function Print(gadget: Gadget, submode: nat): string {
    gadget.Name() + "." + Decimal(submode)
  }

  lemma {:induction false} PrintedForm(name: string, digits: string)
    requires name != "" && digits != "" && '.' !in name
    requires !IsSpace(name[0]) && !IsSpace(digits[|digits| - 1])
    ensures var text := name + "." + digits;
            && IndexOf(text, '.') == |name|
            && text[..|name|] == name && text[|name| + 1..] == digits
            && TrimSpace(text) == text
  {
    ParseOfDotted(name, digits);
  }

  lemma {:induction false} ParseNumbered(name: string, submode: nat)
    requires name != "" && '.' !in name && !IsSpace(name[0]) && submode <= MAX_INT
    ensures var text := name + "." + Decimal(submode);
            Parse(text) == Some(Spec(name, submode)) && TrimSpace(text) == text != ""
  {
    var digits := Decimal(submode);
    AtoiDecimal(submode);
    assert IsDigit(digits[|digits| - 1]);
    PrintedForm(name, digits);
  }

  /** A printed gadget is read back as itself, and trimming does not touch it. */
  lemma {:induction false} ParsePrint(gadget: Gadget, submode: nat)
    requires submode <= MAX_INT
    ensures Parse(Print(gadget, submode)) == Some(Spec(gadget.Name(), submode))
    ensures TrimSpace(Print(gadget, submode)) == Print(gadget, submode) != ""
  {
    NameIsPlain(gadget);
    ParseNumbered(gadget.Name(), submode);
  }

  lemma {:induction false} NameIsPlain(gadget: Gadget)
    ensures gadget.Name() != "" && '.' !in gadget.Name() && !IsSpace(gadget.Name()[0])
  {
  }

  function GadgetNamed(name: string): Option<Gadget> {
    if name == "rndis" then Some(Rndis) else if name == "adb" then Some(Adb) else None
  }

  /** One `--gadget` entry as `init` accepts it. */
  function Entry(spec: string): Option<(Gadget, nat)> {
    match Parse(spec)
    case None => None
    case Some(parsed) =>
      match GadgetNamed(parsed.name)
      case None => None
      case Some(gadget) => if parsed.submode > gadget.MaxSubmode() then None else Some((gadget, parsed.submode))
  }

  /** A gadget is found by its own name and by no other. */
  lemma {:induction false} GadgetNamedIff(name: string, gadget: Gadget)
    ensures GadgetNamed(name) == Some(gadget) <==> gadget.Name() == name
  {
    assert "rndis"[0] != "adb"[0];
  }

  /** A printed gadget is an entry for it exactly when it supports the submode; its bare name stands for submode 0. */
  lemma {:induction false} PrintedEntry(gadget: Gadget, submode: nat)
    requires submode <= MAX_INT
    ensures Entry(Print(gadget, submode)) == if submode <= gadget.MaxSubmode() then Some((gadget, submode)) else None
    ensures Entry(gadget.Name()) == Some((gadget, 0))
  {
    ParsePrint(gadget, submode);
    GadgetNamedIff(gadget.Name(), gadget);
    NameIsPlain(gadget);
    ParseIff(gadget.Name(), gadget.Name(), 0);
  }

  /** Without entries the daemon has RNDIS in gateway mode and then ADB. */
  lemma {:induction false} DefaultEntries()
    ensures |DEFAULT_GADGETS| == 2
    ensures Entry(DEFAULT_GADGETS[0]) == Some((Rndis, 0)) && Entry(DEFAULT_GADGETS[1]) == Some((Adb, 0))
  {
    PrintedEntry(Rndis, 0);
    PrintedEntry(Adb, 0);
  }

  const DEFAULT_GADGETS: seq<string> := ["rndis", "adb"]

  /**
   * The mode table built by `init`. It is accepted exactly when every entry is, keeps the order
   * of the entries, is never empty, and starts every gadget on a submode it supports.
   */
  method BuildModes(gadgets: seq<string>) returns (r: Option<(seq<Gadget>, seq<int>)>)
    ensures var specs := if gadgets == [] then DEFAULT_GADGETS else gadgets;
            && (r.Some? <==> forall i :: 0 <= i < |specs| ==> Entry(specs[i]).Some?)
            && (r.Some? ==>
                  && |r.value.0| == |r.value.1| == |specs| > 0
                  && forall i :: 0 <= i < |specs| ==>
                       && Entry(specs[i]) == Some((r.value.0[i], r.value.1[i]))
                       && 0 <= r.value.1[i] <= r.value.0[i].MaxSubmode())
  {
    var specs := if gadgets == [] then DEFAULT_GADGETS else gadgets;
    var modes: seq<Gadget>, submodes: seq<int> := [], [];
    for n := 0 to |specs|
      invariant |modes| == |submodes| == n
      invariant forall i :: 0 <= i < n ==> Entry(specs[i]) == Some((modes[i], submodes[i]))
    {
      var parsed := Parse(specs[n]);
      if parsed.None? { return None; }
      var gadget := GadgetNamed(parsed.value.name);
      if gadget.None? { return None; }
      if parsed.value.submode > gadget.value.MaxSubmode() { return None; }
      modes, submodes := modes + [gadget.value], submodes + [parsed.value.submode];
    }
    return Some((modes, submodes));
  }
}
