/** The command lines a plugin prints for Smuxi to execute. */
module Commands {
  import opened Wrappers

  const SessionCommandType: string := "Session.Command"
  const ProtocolManagerCommandType: string := "ProtocolManager.Command"
  const EchoCommandName: string := "echo"

  /** One call of `command(type, name, data)`. */
  datatype CommandCall = CommandCall(commandType: string, name: string, data: Option<string>)

  /** The line `command` prints: `<type> /<name>`, then a space and the data
      whenever data is given at all, even when it is empty. */
  function CommandLine(c: CommandCall): string {
    var head := c.commandType + " /" + c.name;
    match c.data
    case None => head
    case Some(d) => head + " " + d
  }

  /** The lines printed by a sequence of calls, in order. The host reads
      every call whose type and name have no space back from its own line. */
  function Lines(calls: seq<CommandCall>): (r: seq<string>)
    ensures |r| == |calls|
    ensures forall i :: 0 <= i < |calls| ==> r[i] == CommandLine(calls[i])
    ensures forall i :: 0 <= i < |calls| && ' ' !in calls[i].commandType && ' ' !in calls[i].name ==>
      ParseCommandLine(r[i]) == Some(calls[i])
  {
    var r := seq(|calls|, i requires 0 <= i < |calls| => CommandLine(calls[i]));
    forall i | 0 <= i < |calls| && ' ' !in calls[i].commandType && ' ' !in calls[i].name
      ensures ParseCommandLine(r[i]) == Some(calls[i])
    {
      ParseCommandLineRoundTrip(calls[i]);
    }
    r
  }

  /** The index of the first space in `s`. */
  function FirstSpace(s: string): (r: Option<nat>)
    ensures r.Some? ==> r.value < |s| && s[r.value] == ' ' && ' ' !in s[..r.value]
    ensures r.None? <==> ' ' !in s
  {
    if s == [] then None
    else if s[0] == ' ' then Some(0)
    else
      var r := FirstSpace(s[1..]);
      assert s == [s[0]] + s[1..];
      if r.Some? then
        assert s[..r.value + 1] == [s[0]] + s[1..][..r.value];
        Some(r.value + 1)
      else None
  }

  /** How the host reads a command line back: the type up to the first
      space, then `/`, then the name and data as `ParseNameAndData` reads them. */
  function ParseCommandLine(line: string): Option<CommandCall> {
    match FirstSpace(line)
    case None => None
    case Some(i) =>
      if i + 1 < |line| && line[i + 1] == '/' then
        var (name, data) := ParseNameAndData(line[i + 2..]);
        Some(CommandCall(line[..i], name, data))
      else None
  }

  /** The name up to the first space, and the rest after it as data. */
  function ParseNameAndData(rest: string): (string, Option<string>) {
    match FirstSpace(rest)
    case None => (rest, None)
    case Some(j) => (rest[..j], Some(rest[j + 1..]))
  }

  /** Whatever the host reads from a line prints back as that line. */
  lemma ParseCommandLineExact(line: string)
    requires ParseCommandLine(line).Some?
    ensures var c := ParseCommandLine(line).value;
      ' ' !in c.commandType && ' ' !in c.name && CommandLine(c) == line
  {
    var i := FirstSpace(line).value;
    var rest := line[i + 2..];
    CutAround(line, i, " /");
    match FirstSpace(rest)
    case None =>
    case Some(j) =>
      CutAround(rest, j, " ");
      ConcatAssoc(line[..i], " /", rest[..j], " ", rest[j + 1..]);
  }

  lemma ConcatAssoc(a: string, b: string, c: string, d: string, e: string)
    ensures a + b + (c + d + e) == a + b + c + d + e
  {
  }

  /** `s` is the part before `sep`, `sep`, and the part after it. */
  lemma CutAround(s: string, i: nat, sep: string)
    requires i + |sep| <= |s| && s[i..i + |sep|] == sep
    ensures s == s[..i] + sep + s[i + |sep|..]
  {
    assert s == s[..i] + s[i..i + |sep|] + s[i + |sep|..];
  }

  /** A command whose type and name have no spaces is read back as issued. */
  lemma ParseCommandLineRoundTrip(c: CommandCall)
    requires ' ' !in c.commandType && ' ' !in c.name
    ensures ParseCommandLine(CommandLine(c)) == Some(c)
  {
    var t := c.commandType;
    var rest := c.name + (if c.data.Some? then " " + c.data.value else "");
    var line := t + " /" + rest;
    if c.data.Some? {
      ConcatAssoc(t, " /", c.name, " ", c.data.value);
    }
    assert CommandLine(c) == line;
    FirstSpaceAfter(t, " /" + rest);
    assert t + (" /" + rest) == line;
    assert line[|t| + 1] == '/';
    assert line[..|t|] == t;
    assert line[|t| + 2..] == rest;
    ParseAfterType(line, |t|, c.name, c.data);
  }

  /** Parsing once the type's space and `/` have been found at `i`. */
  lemma ParseAfterType(line: string, i: nat, name: string, data: Option<string>)
    requires ' ' !in name
    requires FirstSpace(line) == Some(i) && i + 1 < |line| && line[i + 1] == '/'
    requires line[i + 2..] == name + (if data.Some? then " " + data.value else "")
    ensures ParseCommandLine(line) == Some(CommandCall(line[..i], name, data))
  {
    ParseNameAndDataRoundTrip(name, data);
  }

  lemma ParseNameAndDataRoundTrip(name: string, data: Option<string>)
    requires ' ' !in name
    ensures ParseNameAndData(name + (if data.Some? then " " + data.value else "")) == (name, data)
  {
    var rest := name + (if data.Some? then " " + data.value else "");
    if data.Some? {
      FirstSpaceAfter(name, " " + data.value);
      assert rest[..|name|] == name;
      assert rest[|name| + 1..] == data.value;
    } else {
      assert rest == name;
    }
  }

  /** The first space of `a + b` is the first of `b` when `a` has none. */
  lemma {:induction false} FirstSpaceAfter(a: string, b: string)
    requires ' ' !in a && |b| > 0 && b[0] == ' '
    ensures FirstSpace(a + b) == Some(|a|)
  {
    if a != [] {
      assert a[0] in a;
      assert (a + b)[1..] == a[1..] + b;
      FirstSpaceAfter(a[1..], b);
    }
  }

  /** Data that is present but empty still adds the separating space. */
  lemma EmptyDataAddsSpace(commandType: string, name: string)
    ensures CommandLine(CommandCall(commandType, name, Some(""))) == CommandLine(CommandCall(commandType, name, None)) + " "
    ensures CommandLine(CommandCall(commandType, name, Some(""))) != CommandLine(CommandCall(commandType, name, None))
  {
  }
}
