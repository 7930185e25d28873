/** The table of mounts, as the kernel lists it in /proc/<pid>/mountinfo. */
module MountInfo {
  import opened Text
  import opened Trees

  datatype Entry = Entry(
    id: int,
    parentId: int,
    major: int,
    minor: int,
    root: string,
    mountPoint: string,
    mountOptions: seq<string>,
    optionalFields: seq<string>,
    fsType: string,
    source: string,
    superOptions: seq<string>)

  const MIN_FIELDS := 10

  // ---------- parsing ----------

  function DashFrom(fields: seq<string>, i: nat): (d: nat)
    requires i <= |fields|
    ensures i <= d <= |fields| && "-" !in fields[i..d] && (d < |fields| ==> fields[d] == "-")
    decreases |fields| - i
  {
    if i == |fields| || fields[i] == "-" then i
    else
      var d := DashFrom(fields, i + 1);
      assert fields[i..d] == [fields[i]] + fields[i + 1..d];
      d
  }

  /** Six fields, any number of optional ones up to a dash, and three more. */
  function ParseFields(fields: seq<string>): Option<Entry> {
    if |fields| < MIN_FIELDS then None
    else
      var id, parent, mm := Atoi(fields[0]), Atoi(fields[1]), Split(fields[2], ':');
      if id.None? || parent.None? || |mm| != 2 || Atoi(mm[0]).None? || Atoi(mm[1]).None? then None
      else
        var d := DashFrom(fields, 6);
        if |fields| - (d + 1) < 3 then None
        else Some(Entry(id.value, parent.value, Atoi(mm[0]).value, Atoi(mm[1]).value, fields[3], fields[4],
                        Split(fields[5], ','), fields[6..d], fields[d + 1], fields[d + 2], Split(fields[d + 3], ',')))
  }

  function ParseLines(lines: seq<string>): Option<seq<Entry>> {
    if lines == [] then Some([])
    else if lines[0] == "" then ParseLines(lines[1..])
    else
      var entry, rest := ParseFields(Fields(lines[0])), ParseLines(lines[1..]);
      if entry.None? || rest.None? then None else Some([entry.value] + rest.value)
  }

  function Parse(content: string): Option<seq<Entry>> {
    ParseLines(Split(content, '\n'))
  }

  lemma {:induction false} OneMoreField(fields: seq<string>, i: nat)
    requires 6 <= i < |fields| && fields[i] != "-"
    ensures fields[6..i + 1] == fields[6..i] + [fields[i]] && DashFrom(fields, i) == DashFrom(fields, i + 1)
  {
  }

  method ParseLine(line: string) returns (entry: Option<Entry>)
    ensures entry == ParseFields(Fields(line))
  {
    var fields := Fields(line);
    if |fields| < MIN_FIELDS {
      return None;
    }
    var id := Atoi(fields[0]);
    if id.None? {
      return None;
    }
    var parentId := Atoi(fields[1]);
    if parentId.None? {
      return None;
    }
    var mm := Split(fields[2], ':');
    if |mm| != 2 {
      return None;
    }
    var major := Atoi(mm[0]);
    if major.None? {
      return None;
    }
    var minor := Atoi(mm[1]);
    if minor.None? {
      return None;
    }
    var optionalFields := [];
    var i := 6;
    while i < |fields| && fields[i] != "-"
      invariant 6 <= i <= |fields|
      invariant optionalFields == fields[6..i] && DashFrom(fields, 6) == DashFrom(fields, i)
    {
      OneMoreField(fields, i);
      optionalFields := optionalFields + [fields[i]];
      i := i + 1;
    }
    assert DashFrom(fields, 6) == i;
    i := i + 1;
    if |fields| - i < 3 {
      return None;
    }
    return Some(Entry(id.value, parentId.value, major.value, minor.value, fields[3], fields[4],
                      Split(fields[5], ','), optionalFields, fields[i], fields[i + 1], Split(fields[i + 2], ',')));
  }

  function Prepend(infos: seq<Entry>, rest: Option<seq<Entry>>): Option<seq<Entry>> {
    if rest.None? then None else Some(infos + rest.value)
  }

  lemma {:induction false} PrependNothing(rest: Option<seq<Entry>>)
    ensures Prepend([], rest) == rest
  {
    assert rest.Some? ==> [] + rest.value == rest.value;
  }

  lemma {:induction false} PrependOne(infos: seq<Entry>, lines: seq<string>)
    requires lines != [] && lines[0] != ""
    ensures var e := ParseFields(Fields(lines[0]));
            Prepend(infos, ParseLines(lines)) == if e.None? then None else Prepend(infos + [e.value], ParseLines(lines[1..]))
  {
    var e, rest := ParseFields(Fields(lines[0])), ParseLines(lines[1..]);
    if e.Some? && rest.Some? {
      assert infos + ([e.value] + rest.value) == infos + [e.value] + rest.value;
    }
  }

  method ParseMountInfo(content: string) returns (entries: Option<seq<Entry>>)
    ensures entries == Parse(content)
  {
    var infos := [];
    var lines := Split(content, '\n');
    assert lines[0..] == lines;
    PrependNothing(ParseLines(lines));
    for n := 0 to |lines|
      invariant ParseLines(lines) == Prepend(infos, ParseLines(lines[n..]))
    {
      assert lines[n..][0] == lines[n] && lines[n..][1..] == lines[n + 1..];
      if lines[n] == "" {
        continue;
      }
      PrependOne(infos, lines[n..]);
      var entry := ParseLine(lines[n]);
      if entry.None? {
        return None;
      }
      infos := infos + [entry.value];
    }
    assert lines[|lines|..] == [] && infos + [] == infos;
    return Some(infos);
  }

  // ---------- the kernel's layout ----------

  function Layout(e: Entry): seq<string> {
    [Itoa(e.id), Itoa(e.parentId), Itoa(e.major) + [':'] + Itoa(e.minor), e.root, e.mountPoint, Join(e.mountOptions, ',')]
    + e.optionalFields
    + ["-", e.fsType, e.source, Join(e.superOptions, ',')]
  }

  function Format(entries: seq<Entry>): string {
    if entries == [] then "" else Join(Layout(entries[0]), ' ') + ['\n'] + Format(entries[1..])
  }

  predicate Is64Bit(n: int) {
    MIN_INT <= n <= MAX_INT
  }

  predicate IsOptionList(options: seq<string>) {
    options != [] && (forall o | o in options :: ',' !in o) && IsWord(Join(options, ','))
  }

  /** What the layout can carry. */
  predicate Printable(e: Entry) {
    && Is64Bit(e.id) && Is64Bit(e.parentId) && Is64Bit(e.major) && Is64Bit(e.minor)
    && IsWord(e.root) && IsWord(e.mountPoint) && IsWord(e.fsType) && IsWord(e.source)
    && IsOptionList(e.mountOptions) && IsOptionList(e.superOptions)
    && forall f | f in e.optionalFields :: IsWord(f) && f != "-"
  }

  lemma {:induction false} LayoutWords(e: Entry)
    requires Printable(e)
    ensures forall w | w in Layout(e) :: IsWord(w)
  {
    ItoaIsWord(e.id);
    ItoaIsWord(e.parentId);
    ItoaIsWord(e.major);
    ItoaIsWord(e.minor);
  }

  lemma {:induction false} DeviceRead(major: int, minor: int)
    requires Is64Bit(major) && Is64Bit(minor)
    ensures var mm := Split(Itoa(major) + [':'] + Itoa(minor), ':');
            |mm| == 2 && Atoi(mm[0]) == Some(major) && Atoi(mm[1]) == Some(minor)
  {
    ItoaIsWord(major);
    ItoaIsWord(minor);
    AtoiOfItoa(major);
    AtoiOfItoa(minor);
    SplitOfConcat(Itoa(major), Itoa(minor), ':');
    assert Join([Itoa(major)], ':') == Itoa(major) && Join([Itoa(minor)], ':') == Itoa(minor);
    SplitOfJoin([Itoa(major)], ':');
    SplitOfJoin([Itoa(minor)], ':');
  }

  lemma {:induction false} DashAt(fields: seq<string>, i: nat, d: nat)
    requires i <= d < |fields| && fields[d] == "-" && forall j | i <= j < d :: fields[j] != "-"
    ensures DashFrom(fields, i) == d
    decreases d - i
  {
    if i < d {
      DashAt(fields, i + 1, d);
    }
  }

  lemma {:induction false} FieldsRead(e: Entry)
    requires Printable(e)
    ensures ParseFields(Layout(e)) == Some(e)
  {
    var fields := Layout(e);
    var d := 6 + |e.optionalFields|;
    assert fields[6..d] == e.optionalFields;
    assert forall j | 6 <= j < d :: fields[j] == e.optionalFields[j - 6] && e.optionalFields[j - 6] in e.optionalFields;
    DashAt(fields, 6, d);
    AtoiOfItoa(e.id);
    AtoiOfItoa(e.parentId);
    DeviceRead(e.major, e.minor);
    SplitOfJoin(e.mountOptions, ',');
    SplitOfJoin(e.superOptions, ',');
  }

  lemma {:induction false} NotInJoin(words: seq<string>, c: char, sep: char)
    requires c != sep && forall w | w in words :: c !in w
    ensures c !in Join(words, sep)
  {
    if |words| > 1 {
      assert words[0] in words;
      NotInJoin(words[1..], c, sep);
    } else if |words| == 1 {
      assert words[0] in words;
    }
  }

  lemma {:induction false} LineRead(e: Entry)
    requires Printable(e)
    ensures var line := Join(Layout(e), ' ');
            line != "" && Split(line, '\n') == [line] && ParseFields(Fields(line)) == Some(e)
  {
    var line := Join(Layout(e), ' ');
    LayoutWords(e);
    assert forall w | w in Layout(e) :: '\n' !in w;
    NotInJoin(Layout(e), '\n', ' ');
    assert Join([line], '\n') == line;
    SplitOfJoin([line], '\n');
    FieldsOfJoin(Layout(e));
    FieldsRead(e);
    assert Layout(e)[0] in Layout(e);
  }

  lemma {:induction false} ParseNothing()
    ensures Parse("") == Some([])
  {
    assert Split("", '\n') == [""];
    assert [""][1..] == [];
  }

  /** Whatever table of printable entries the kernel lays out, parsing gives it back, with any number
      of optional fields. */
  lemma {:induction false} RoundTrip(entries: seq<Entry>)
    requires forall i | 0 <= i < |entries| :: Printable(entries[i])
    ensures Parse(Format(entries)) == Some(entries)
  {
    if entries == [] {
      ParseNothing();
    } else {
      var e, rest := entries[0], entries[1..];
      RoundTrip(rest);
      FormatMore(e, rest);
      OneMoreLine(e, Format(rest), rest);
      assert entries == [e] + rest;
    }
  }

  lemma {:induction false} FormatMore(e: Entry, rest: seq<Entry>)
    ensures Format([e] + rest) == Join(Layout(e), ' ') + ['\n'] + Format(rest)
  {
    assert ([e] + rest)[1..] == rest;
  }

  lemma {:induction false} OneMoreLine(e: Entry, text: string, rest: seq<Entry>)
    requires Printable(e) && Parse(text) == Some(rest)
    ensures Parse(Join(Layout(e), ' ') + ['\n'] + text) == Some([e] + rest)
  {
    LineRead(e);
    ParseFirstLine(e, text);
  }

  lemma {:induction false} ParseFirstLine(e: Entry, rest: string)
    requires var line := Join(Layout(e), ' ');
             line != "" && Split(line, '\n') == [line] && ParseFields(Fields(line)) == Some(e)
    requires Parse(rest).Some?
    ensures Parse(Join(Layout(e), ' ') + ['\n'] + rest) == Some([e] + Parse(rest).value)
  {
    var line := Join(Layout(e), ' ');
    SplitOfConcat(line, rest, '\n');
    ParseFirst(line, Split(rest, '\n'));
  }

  lemma {:induction false} ParseFirst(line: string, lines: seq<string>)
    requires line != "" && ParseFields(Fields(line)).Some? && ParseLines(lines).Some?
    ensures ParseLines([line] + lines) == Some([ParseFields(Fields(line)).value] + ParseLines(lines).value)
  {
    assert ([line] + lines)[1..] == lines;
  }

  lemma {:induction false} OptionsParsed(w: string)
    requires IsWord(w)
    ensures IsOptionList(Split(w, ','))
  {
    JoinOfSplit(w, ',');
  }

  /** The round trip covers every entry the parser can produce. */
  lemma {:induction false} ParsedIsPrintable(fields: seq<string>)
    requires ParseFields(fields).Some? && forall w | w in fields :: IsWord(w)
    ensures Printable(ParseFields(fields).value)
  {
    var d := DashFrom(fields, 6);
    assert forall i | 0 <= i < |fields| :: IsWord(fields[i]);
    OptionsParsed(fields[5]);
    OptionsParsed(fields[d + 3]);
    assert forall f | f in fields[6..d] :: f in fields;
  }

  /** An accepted table and its canonical layout mean the same. */
  lemma {:induction false} AcceptedTablesRoundTrip(content: string)
    requires Parse(content).Some?
    ensures Parse(Format(Parse(content).value)) == Parse(content)
  {
    LinesPrintable(Split(content, '\n'));
    RoundTrip(Parse(content).value);
  }

  lemma {:induction false} LinesPrintable(lines: seq<string>)
    requires ParseLines(lines).Some?
    ensures forall i | 0 <= i < |ParseLines(lines).value| :: Printable(ParseLines(lines).value[i])
  {
    if lines != [] {
      LinesPrintable(lines[1..]);
      if lines[0] != "" {
        ParsedIsPrintable(Fields(lines[0]));
      }
    }
  }

  // ---------- what a text means ----------

  /** The fields describe e, the dash being the one at d. */
  ghost predicate Describe(fields: seq<string>, d: nat, e: Entry) {
    && 6 <= d < |fields| - 3 && fields[d] == "-" && "-" !in fields[6..d]
    && Atoi(fields[0]) == Some(e.id) && Atoi(fields[1]) == Some(e.parentId)
    && IsDevice(fields[2], e.major, e.minor)
    && fields[3] == e.root && fields[4] == e.mountPoint && Enumerates(fields[5], e.mountOptions)
    && fields[6..d] == e.optionalFields && fields[d + 1] == e.fsType && fields[d + 2] == e.source
    && Enumerates(fields[d + 3], e.superOptions)
  }

  ghost predicate Enumerates(text: string, options: seq<string>) {
    options != [] && (forall o | o in options :: ',' !in o) && text == Join(options, ',')
  }

  lemma {:induction false} EnumeratesIff(text: string, options: seq<string>)
    ensures Enumerates(text, options) <==> Split(text, ',') == options
  {
    JoinOfSplit(text, ',');
    if Enumerates(text, options) {
      SplitOfJoin(options, ',');
    }
  }

  ghost predicate IsDevice(text: string, major: int, minor: int) {
    exists a: string, b: string :: text == a + ":" + b && ':' !in a && ':' !in b && Atoi(a) == Some(major) && Atoi(b) == Some(minor)
  }

  lemma {:induction false} DeviceIff(text: string, major: int, minor: int)
    ensures IsDevice(text, major, minor) <==>
              var mm := Split(text, ':'); |mm| == 2 && Atoi(mm[0]) == Some(major) && Atoi(mm[1]) == Some(minor)
  {
    var mm := Split(text, ':');
    JoinOfSplit(text, ':');
    if |mm| == 2 {
      assert mm[0] in mm && mm[1] in mm && Join(mm[1..], ':') == mm[1];
      assert text == mm[0] + ":" + mm[1];
    }
    if IsDevice(text, major, minor) {
      var a: string, b: string :|
        text == a + ":" + b && ':' !in a && ':' !in b && Atoi(a) == Some(major) && Atoi(b) == Some(minor);
      assert Join([a, b], ':') == a + ":" + b by {
        assert [a, b][1..] == [b];
      }
      SplitOfJoin([a, b], ':');
    }
  }

  lemma {:induction false} FirstDash(fields: seq<string>, d: nat)
    requires 6 <= d < |fields|
    ensures fields[d] == "-" && "-" !in fields[6..d] <==> d == DashFrom(fields, 6)
  {
    assert forall j | 6 <= j < d :: fields[j] == fields[6..d][j - 6];
    if fields[d] == "-" && "-" !in fields[6..d] {
      DashAt(fields, 6, d);
    }
  }

  lemma {:induction false} ParseFieldsAt(fields: seq<string>, d: nat, e: Entry)
    requires |fields| >= 10 && d == DashFrom(fields, 6)
    ensures ParseFields(fields) == Some(e) <==> Describe(fields, d, e)
  {
    DeviceIff(fields[2], e.major, e.minor);
    EnumeratesIff(fields[5], e.mountOptions);
    if d < |fields| - 3 {
      FirstDash(fields, d);
      EnumeratesIff(fields[d + 3], e.superOptions);
    }
  }

  /** A line is read as e exactly if its fields describe e. */
  lemma {:induction false} ParseFieldsIff(fields: seq<string>, e: Entry)
    ensures ParseFields(fields) == Some(e) <==> exists d: nat :: Describe(fields, d, e)
  {
    if |fields| >= 10 {
      ParseFieldsAt(fields, DashFrom(fields, 6), e);
      forall d: nat | Describe(fields, d, e)
        ensures d == DashFrom(fields, 6)
      {
        FirstDash(fields, d);
      }
    }
  }

  /** A text is read line by line: empty lines say nothing, and any other has to be read. */
  lemma {:induction false} ParseByLine(line: string, rest: string)
    requires '\n' !in line
    ensures Parse(line + "\n" + rest) == (if line == "" then Parse(rest)
                                         else if ParseFields(Fields(line)).None? || Parse(rest).None? then None
                                         else Some([ParseFields(Fields(line)).value] + Parse(rest).value))
  {
    SplitWhole(line, '\n');
    SplitOfConcat(line, rest, '\n');
    assert ([line] + Split(rest, '\n'))[1..] == Split(rest, '\n');
  }

  /** The last line need not be ended. */
  lemma {:induction false} LastLine(line: string)
    requires '\n' !in line
    ensures Parse(line) == Parse(line + "\n" + "")
  {
    SplitWhole(line, '\n');
    ParseByLine(line, "");
    ParseNothing();
    assert [line][1..] == [];
  }
}
