/** Saving `/etc/resolv.conf` on entry to the RNDIS client submode and putting it back on exit. */
module ResolvConf {
  import opened Text

  /** What a path holds. */
  datatype Node = Missing | File(content: string) | Link(target: string)

  /** `/etc/resolv.conf`, the files that links can lead to, and the backup under `/tmp`. */
  datatype World = World(resolv: Node, files: map<string, string>, backup: Option<string>)

  /** `os.ReadFile` of resolv.conf follows a link. */
  function Read(w: World): Option<string> {
    match w.resolv
    case Missing => None
    case File(c) => Some(c)
    case Link(t) => if t in w.files then Some(w.files[t]) else None
  }

  /** `os.WriteFile` of resolv.conf follows a link, too. */
  function Write(w: World, content: string): World {
    match w.resolv
    case Link(t) => w.(files := w.files[t := content])
    case _ => w.(resolv := File(content))
  }

  /** `os.Symlink` in place of a removed resolv.conf; the empty target is refused. */
  function Symlink(w: World, target: string): Option<World> {
    if target == "" then None else Some(w.(resolv := Link(target)))
  }

  const LINK_MARK: string := "LINK:"
  const IDENT: string := "miruku-wifi-" + "stick-usb-" + "switcher"
  const HEADER_LINE: string := "#" + " generated by " + IDENT + " RNDIS client" + " submode"
  const HEADER: string := HEADER_LINE + "\n"

  function Lines(dns: seq<string>): string {
    if dns == [] then "" else Lines(dns[..|dns| - 1]) + "nameserver " + dns[|dns| - 1] + "\n"
  }

  function Generated(dns: seq<string>, fallback: string): string {
    HEADER + Lines(if dns == [] then [fallback] else dns)
  }

  /** The text of the backup: a link is written as a marked first line before its content. */
  function Encode(node: Node, content: string): string {
    if node.Link? then LINK_MARK + node.target + "\n" + content else content
  }

  /** `backup_resolv_conf`: only the first entry counts, and only a readable file. */
  function Backup(w: World): World {
    if w.backup.Some? then w
    else match Read(w)
      case None => w
      case Some(content) => w.(backup := Some(Encode(w.resolv, content)))
  }

  /** `apply_dns`. */
  function Apply(w: World, dns: seq<string>, fallback: string): World {
    Write(Backup(w).(resolv := Missing), Generated(dns, fallback))
  }

  /** `restore_dns`. */
  function Restore(w: World): World {
    match w.backup
    case None => w
    case Some(data) =>
      var removed := w.(resolv := Missing);
      var cut := IndexOf(data, '\n');
      var restored :=
        if cut < |data| && HasPrefix(data[..cut], LINK_MARK) then
          match Symlink(removed, data[|LINK_MARK|..cut])
          case None => removed
          case Some(linked) => Write(linked, data[cut + 1..])
        else Write(removed, data);
      restored.(backup := None)
  }

  datatype Op = Enter(dns: seq<string>, fallback: string) | Leave

  function Exec(w: World, ops: seq<Op>): World {
    if ops == [] then w
    else
      var before := Exec(w, ops[..|ops| - 1]);
      match ops[|ops| - 1]
      case Enter(dns, fallback) => Apply(before, dns, fallback)
      case Leave => Restore(before)
  }

  // ----- the round trip -----

  /**
   * An original that comes back: readable, and either a regular file whose first line is not
   * mistaken for the link mark, or a link whose target fits on one line.
   */
  predicate Restorable(w: World) {
    && Read(w).Some?
    && match w.resolv
       case Missing => false
       case File(c) => !(HasPrefix(c, LINK_MARK) && '\n' in c)
       case Link(t) => t != "" && '\n' !in t
  }

  lemma {:induction false} MarkedLine(target: string, content: string)
    requires '\n' !in target
    ensures var data := Encode(Link(target), content);
            var cut := IndexOf(data, '\n');
            && cut < |data| && HasPrefix(data[..cut], LINK_MARK)
            && data[|LINK_MARK|..cut] == target && data[cut + 1..] == content
  {
    var head := LINK_MARK + target;
    assert Encode(Link(target), content) == head + ['\n'] + content;
    IndexOfSplit(head, '\n', content);
  }

  /** Restoring from the backup of a restorable original gives it back, whatever replaced it. */
  lemma {:induction false} RestoreUndoes(w: World, content: string, now: Node)
    requires Restorable(w) && w.backup == None && Read(w) == Some(content)
    ensures Restore(World(now, w.files, Some(Encode(w.resolv, content)))) == w
  {
    if w.resolv.Link? {
      MarkedLine(w.resolv.target, content);
      assert w.files[w.resolv.target := content] == w.files;
    } else {
      var cut := IndexOf(content, '\n');
      if cut < |content| && HasPrefix(content[..cut], LINK_MARK) {
        assert HasPrefix(content, LINK_MARK);
      }
    }
  }

  /** While the original is away, only the backup and resolv.conf itself differ. */
  predicate Away(w: World, now: World) {
    now.files == w.files && Read(w).Some? && now.backup == Some(Encode(w.resolv, Read(w).value))
  }

  lemma {:induction false} HomeOrAway(w: World, ops: seq<Op>)
    requires Restorable(w) && w.backup == None
    ensures Exec(w, ops) == w || Away(w, Exec(w, ops))
    ensures ops != [] && ops[|ops| - 1].Leave? ==> Exec(w, ops) == w
  {
    if ops != [] {
      var before := Exec(w, ops[..|ops| - 1]);
      HomeOrAway(w, ops[..|ops| - 1]);
      if ops[|ops| - 1].Leave? && before != w {
        RestoreUndoes(w, Read(w).value, before.resolv);
      }
    }
  }

  /**
   * Any number of entries, exits and further cycles, ending with an exit, gives back the original
   * kind, target and content, and leaves no backup.
   */
  lemma {:induction false} RoundTrip(w: World, ops: seq<Op>)
    requires Restorable(w) && w.backup == None
    requires ops != [] && ops[|ops| - 1].Leave?
    ensures Exec(w, ops) == w
  {
    HomeOrAway(w, ops);
  }

  /** The text that an entry writes; it is never mistaken for a marked link. */
  predicate IsGenerated(text: string) {
    text != "" && text[0] == '#'
  }

  lemma {:induction false} EntriesKeepBackup(w: World, entries: seq<Op>)
    requires entries != [] && forall i :: 0 <= i < |entries| ==> entries[i].Enter?
    requires w.backup == None
    ensures var now := Exec(w, entries);
            && now.resolv.File? && IsGenerated(now.resolv.content)
            && (Read(w).Some? ==> Away(w, now))
            && (Read(w).None? ==> now.backup.None? || IsGenerated(now.backup.value))
  {
    var init := entries[..|entries| - 1];
    var last := entries[|entries| - 1];
    assert Generated(last.dns, last.fallback)[0] == HEADER[0] == '#';
    if init == [] {
      assert Exec(w, init) == w;
    } else {
      EntriesKeepBackup(w, init);
    }
  }

  lemma {:induction false} GeneratedStays(now: World)
    requires now.resolv.File? && (now.backup.None? || IsGenerated(now.backup.value))
    ensures Restore(now).resolv.File?
  {
    assert LINK_MARK[0] != '#';
  }

  /** Entering any number of times and leaving gives back the original exactly when it is restorable. */
  lemma {:induction false} CycleIff(w: World, entries: seq<Op>)
    requires entries != [] && forall i :: 0 <= i < |entries| ==> entries[i].Enter?
    requires w.backup == None
    ensures Exec(w, entries + [Leave]) == w <==> Restorable(w)
  {
    var ops := entries + [Leave];
    assert ops[..|ops| - 1] == entries;
    var now := Exec(w, entries);
    EntriesKeepBackup(w, entries);
    assert Exec(w, ops) == Restore(now);
    if Restorable(w) {
      RestoreUndoes(w, Read(w).value, now.resolv);
    } else if Read(w).Some? {
      Mangled(w, now);
    } else {
      GeneratedStays(now);
    }
  }

  /** The other originals come back as something else: a link for a file, or a shortened target. */
  lemma {:induction false} Mangled(w: World, now: World)
    requires Read(w).Some? && !Restorable(w) && w.backup == None && Away(w, now)
    ensures Restore(now).resolv != w.resolv
  {
    var data := now.backup.value;
    var cut := IndexOf(data, '\n');
    if w.resolv.File? {
      assert HasPrefix(data, LINK_MARK) && cut < |data|;
      assert forall i :: 0 <= i < |LINK_MARK| ==> data[i] == LINK_MARK[i] != '\n';
      assert data[..cut][..|LINK_MARK|] == LINK_MARK;
    } else {
      var t := w.resolv.target;
      assert data == LINK_MARK + t + "\n" + w.files[t];
      assert forall i :: 0 <= i < |LINK_MARK| ==> data[i] == LINK_MARK[i] != '\n';
      if '\n' in t {
        var k :| 0 <= k < |t| && t[k] == '\n';
        assert data[|LINK_MARK| + k] == '\n';
        assert cut <= |LINK_MARK| + k;
      }
      assert data[..cut][..|LINK_MARK|] == LINK_MARK;
      assert |data[|LINK_MARK|..cut]| < |t| || t == "";
    }
  }

  // ----- the text, read back -----

  const SERVER_MARK: string := "nameserver "

  /** The name behind the mark, if the line has it. */
  function ServerIn(line: string): seq<string> {
    if HasPrefix(line, SERVER_MARK) then [line[|SERVER_MARK|..]] else []
  }

  function ServersIn(lines: seq<string>): seq<string> {
    if lines == [] then [] else ServersIn(lines[..|lines| - 1]) + ServerIn(lines[|lines| - 1])
  }

  /** What a resolver reads from a text, line by line. */
  function Servers(text: string): seq<string> {
    ServersIn(Split(text, '\n'))
  }

  lemma {:induction false} OneMoreLine(lines: seq<string>, line: string)
    ensures ServersIn(lines + [line]) == ServersIn(lines) + ServerIn(line)
  {
    assert (lines + [line])[..|lines|] == lines;
  }

  /** A first line and one for each server, with line breaks only in between. */
  function Body(first: string, dns: seq<string>): string {
    if dns == [] then first else Body(first, dns[..|dns| - 1]) + "\n" + (SERVER_MARK + dns[|dns| - 1])
  }

  lemma {:induction false} LinesAreBody(first: string, dns: seq<string>)
    ensures first + "\n" + Lines(dns) == Body(first, dns) + "\n"
  {
    if dns == [] {
      assert first + "\n" + "" == first + "\n";
    } else {
      var init, last := dns[..|dns| - 1], dns[|dns| - 1];
      LinesAreBody(first, init);
      assert Lines(dns) == Lines(init) + (SERVER_MARK + last + "\n");
      assert first + "\n" + Lines(dns) == first + "\n" + Lines(init) + (SERVER_MARK + last + "\n");
      assert Body(first, init) + "\n" + (SERVER_MARK + last + "\n") == Body(first, dns) + "\n";
    }
  }

  lemma {:induction false} BodyNames(first: string, dns: seq<string>)
    requires '\n' !in first && ServerIn(first) == [] && forall i :: 0 <= i < |dns| ==> '\n' !in dns[i]
    ensures Servers(Body(first, dns)) == dns
  {
    if dns == [] {
      SplitPlain(first, '\n');
      OneMoreLine([], first);
      assert [] + [first] == [first];
    } else {
      var init, last := dns[..|dns| - 1], dns[|dns| - 1];
      BodyNames(first, init);
      var line := SERVER_MARK + last;
      SplitConcat(Body(first, init), '\n', line);
      SplitPlain(line, '\n');
      OneMoreLine(Split(Body(first, init), '\n'), line);
      assert HasPrefix(line, SERVER_MARK) && line[|SERVER_MARK|..] == last;
    }
  }

  lemma {:induction false} HeaderIsALine()
    ensures '\n' !in HEADER_LINE && ServerIn(HEADER_LINE) == []
  {
    assert '\n' !in "miruku-wifi-" && '\n' !in "stick-usb-" && '\n' !in "switcher";
    assert '\n' !in IDENT;
    assert '\n' !in "#" && '\n' !in " generated by " && '\n' !in " RNDIS client" && '\n' !in " submode";
    assert HEADER_LINE[0] == '#' && SERVER_MARK[0] != '#';
  }

  /**
   * The text that an entry writes names exactly the servers found, in their order, or the fallback
   * alone when none was found.
   */
  lemma {:induction false} GeneratedNames(dns: seq<string>, fallback: string)
    requires '\n' !in fallback && forall i :: 0 <= i < |dns| ==> '\n' !in dns[i]
    ensures Servers(Generated(dns, fallback)) == if dns == [] then [fallback] else dns
  {
    var names := if dns == [] then [fallback] else dns;
    HeaderIsALine();
    LinesAreBody(HEADER_LINE, names);
    BodyNames(HEADER_LINE, names);
    EndOfText(Body(HEADER_LINE, names));
  }

  lemma {:induction false} EndOfText(text: string)
    ensures Servers(text + "\n") == Servers(text)
  {
    assert text + "\n" == text + ['\n'] + "";
    SplitConcat(text, '\n', "");
    OneMoreLine(Split(text, '\n'), "");
  }

  // ----- the files -----

  class Files {
    var resolv: Node
    var others: map<string, string>
    var backup: Option<string>

    function Value(): World
      reads this
    {
      World(resolv, others, backup)
    }

    constructor (resolv: Node, others: map<string, string>)
      ensures Value() == World(resolv, others, None)
    {
      this.resolv, this.others, backup := resolv, others, None;
    }

    method ReadResolvConf() returns (content: Option<string>)
      ensures content == Read(Value())
    {
      match resolv {
        case Missing => return None;
        case File(c) => return Some(c);
        case Link(t) => return if t in others then Some(others[t]) else None;
      }
    }

    method WriteResolvConf(content: string)
      modifies `resolv, `others
      ensures Value() == Write(old(Value()), content)
    {
      if resolv.Link? {
        others := others[resolv.target := content];
      } else {
        resolv := File(content);
      }
    }

    method BackupResolvConf()
      modifies `backup
      ensures Value() == Backup(old(Value()))
    {
      if backup.Some? { return; }
      var data := ReadResolvConf();
      if data.None? { return; }
      if resolv.Link? {
        backup := Some("LINK:" + resolv.target + "\n" + data.value);
      } else {
        backup := data;
      }
    }

    /** The text that `apply_dns` writes. */
    method ResolvText(dns: seq<string>, fallback: string) returns (text: string)
      ensures text == Generated(dns, fallback)
    {
      var servers := if dns == [] then [fallback] else dns;
      text := HEADER;
      for i := 0 to |servers|
        invariant text == HEADER + Lines(servers[..i])
      {
        assert servers[..i + 1][..i] == servers[..i];
        text := text + ("nameserver " + servers[i] + "\n");
      }
      assert servers[..|servers|] == servers;
    }

    method ApplyDns(dns: seq<string>, fallback: string)
      modifies this
      ensures Value() == Apply(old(Value()), dns, fallback)
    {
      BackupResolvConf();
      var text := ResolvText(dns, fallback);
      resolv := Missing;
      WriteResolvConf(text);
    }

    method RestoreDns()
      modifies this
      ensures Value() == Restore(old(Value()))
    {
      if backup.None? { return; }
      var data := backup.value;
      resolv := Missing;
      var cut := IndexOf(data, '\n');
      if cut < |data| && HasPrefix(data[..cut], "LINK:") {
        var target := data[5..cut];
        if target != "" {
          resolv := Link(target);
          WriteResolvConf(data[cut + 1..]);
        }
      } else {
        WriteResolvConf(data);
      }
      backup := None;
    }
  }
}
