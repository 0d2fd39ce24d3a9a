/**
 The firewalld backend (sys/firewall/firewalld.go, with the grammars of sys/firewall/firewall.go): each rule is
 a service XML file `<namespace>-<id>` enabled in the default zone, and List reads the rules back from the
 zone's service list and the files.
 */
module Firewalld {
  import opened Text

  datatype Rule = Rule(id: string, allow: bool, protocol: string, port: int, source: string, dest: string)

  /** The permanent configuration, which is the service files by service name and the default zone's services in
      listing order, and what firewalld has loaded of both. */
  datatype Host = Host(files: map<string, string>, zone: seq<string>, loaded: map<string, string>, active: seq<string>)

  // ----- grammars -----

  predicate Lower(c: char) { 'a' <= c <= 'z' }

  predicate NamespaceChar(c: char) { Lower(c) || IsDigit(c) || c == '_' }

  predicate IdChar(c: char) { NamespaceChar(c) || c == '-' }

  /** namespaceRE: a lowercase letter, then at most 30 lowercase letters, digits or underscores. */
  predicate ValidNamespace(ns: string) {
    1 <= |ns| <= 31 && Lower(ns[0]) && forall i :: 0 <= i < |ns| ==> NamespaceChar(ns[i])
  }

  /** ruleIDRE: hyphens too, but not first. */
  predicate ValidId(id: string) {
    1 <= |id| <= 63 && NamespaceChar(id[0]) && id[0] != '_' && forall i :: 0 <= i < |id| ==> IdChar(id[i])
  }

  /** The two grammars as the code writes them: one first character, then up to a number of others. */
  lemma Grammars(s: string)
    ensures ValidNamespace(s) <==>
              && s != [] && 'a' <= s[0] <= 'z' && |s[1..]| <= 30
              && forall d :: d in s[1..] ==> 'a' <= d <= 'z' || '0' <= d <= '9' || d == '_'
    ensures ValidId(s) <==>
              && s != [] && ('a' <= s[0] <= 'z' || '0' <= s[0] <= '9') && |s[1..]| <= 62
              && forall d :: d in s[1..] ==> 'a' <= d <= 'z' || '0' <= d <= '9' || d == '_' || d == '-'
  {
    forall i | 1 <= i < |s|
      ensures s[i] in s[1..]
    {
      assert s[i] == s[1..][i - 1];
    }
  }

  /** validateRule, the checks every backend shares. `isAddress` stands for net.ParseIP and net.ParseCIDR. */
  predicate SharedAccepts(rule: Rule, isAddress: string -> bool) {
    && ValidId(rule.id)
    && !(rule.port < 0 || rule.port > 65535)
    && (rule.protocol == "tcp" || rule.protocol == "udp" || rule.protocol == "")
    && (rule.source == "" || isAddress(rule.source))
    && (rule.dest == "" || isAddress(rule.dest))
    && !(rule.allow && rule.protocol == "" && rule.port == 0 && rule.source == "" && rule.dest == "")
  }

  /** firewalldValidateRule, what this backend cannot express. */
  predicate BackendAccepts(rule: Rule) {
    && rule.allow
    && rule.source == ""
    && rule.dest == ""
    && !(rule.protocol != "tcp" && rule.protocol != "udp")
    && rule.port > 0
  }

  /** What the two let through together: an allow rule with a concrete protocol and port and no address scope. */
  predicate Accepts(rule: Rule) {
    && ValidId(rule.id) && rule.allow && rule.source == "" && rule.dest == ""
    && (rule.protocol == "tcp" || rule.protocol == "udp") && 0 < rule.port <= 65535
  }

  lemma ValidatorsTogether(rule: Rule, isAddress: string -> bool)
    ensures SharedAccepts(rule, isAddress) && BackendAccepts(rule) <==> Accepts(rule)
    ensures Accepts(rule) <==>
              && ValidId(rule.id) && 1 <= rule.port <= 65535
              && (rule == Rule(rule.id, true, "tcp", rule.port, "", "") || rule == Rule(rule.id, true, "udp", rule.port, "", ""))
  {
    hide ValidId;
  }

  function ServiceName(ns: string, id: string): string {
    ns + "-" + id
  }

  // ----- service names -----

  lemma NamespaceHasNoHyphen(ns: string)
    requires ValidNamespace(ns)
    ensures '-' !in ns
  {
  }

  /** The prefix that List looks for belongs to one namespace only. */
  lemma PrefixIsNamespace(ns: string, ns': string, id: string)
    requires ValidNamespace(ns) && ValidNamespace(ns')
    ensures ns + "-" <= ServiceName(ns', id) <==> ns == ns'
  {
    NamespaceHasNoHyphen(ns);
    NamespaceHasNoHyphen(ns');
    var name := ServiceName(ns', id);
    IndexByteAt(ns', '-', id);
    if ns + "-" <= name {
      assert name == ns + ['-'] + name[|ns| + 1..];
      IndexByteAt(ns, '-', name[|ns| + 1..]);
      assert |ns| == |ns'|;
      assert ns == name[..|ns|] == ns';
    }
  }

  /** Distinct (namespace, id) pairs have distinct service names. */
  lemma NamesInjective(ns: string, id: string, ns': string, id': string)
    requires ValidNamespace(ns) && ValidNamespace(ns') && ServiceName(ns, id) == ServiceName(ns', id')
    ensures ns == ns' && id == id'
  {
    PrefixIsNamespace(ns, ns', id');
    assert ns + "-" <= ServiceName(ns, id);
    assert id == ServiceName(ns, id)[|ns| + 1..];
    assert id' == ServiceName(ns', id')[|ns'| + 1..];
  }

  lemma NameIsWord(ns: string, id: string)
    requires ValidNamespace(ns) && ValidId(id)
    ensures IsWord(ServiceName(ns, id))
  {
    var name := ServiceName(ns, id);
    forall i | 0 <= i < |name|
      ensures !IsSpace(name[i])
    {
      assert name[i] == if i < |ns| then ns[i] else if i == |ns| then '-' else id[i - |ns| - 1];
    }
  }

  // ----- the service file -----

  function Flat(pieces: seq<string>): string {
    if pieces == [] then [] else Flat(pieces[..|pieces| - 1]) + pieces[|pieces| - 1]
  }

  /** The file up to the port element's name. */
  function HeadPieces(ns: string, id: string): seq<string> {
    ["<?xml", " version", "=\"1.0\"", " encoding", "=\"utf-8\"?>\n<service>\n",
     " ", " <short>", ServiceName(ns, id), "</short>\n",
     " ", " <", "description>", ns, " managed", " rule</", "description>\n",
     " ", " <"]
  }

  const PORT_MARK := "port port=\""
  const PROTOCOL_MARK := "protocol=\""

  /** firewalldServiceXML. */
  function ServiceXml(ns: string, rule: Rule): string
    requires rule.port >= 0
  {
    Flat(HeadPieces(ns, rule.id)) + PORT_MARK + Decimal(rule.port) + "\" " + PROTOCOL_MARK + rule.protocol + "\"/>\n</service>\n"
  }

  /** The text behind the first occurrence of a mark, up to the next quote. */
  function Attribute(body: string, mark: string): Option<string> {
    var at := Index(body, mark);
    if at < 0 then None
    else
      var rest := body[at + |mark|..];
      var end := IndexByte(rest, '"');
      if end > 0 then Some(rest[..end]) else None
  }

  /** firewalldReadServiceRule, on the body read. */
  function ReadRule(id: string, body: string): Option<Rule> {
    var portText := Attribute(body, PORT_MARK);
    var number := if portText.Some? then Atoi(portText.value) else None;
    var port := if number.Some? then number.value else 0;
    var protocolText := Attribute(body, PROTOCOL_MARK);
    var protocol := if protocolText.Some? then protocolText.value else "";
    if port == 0 || protocol == "" then None else Some(Rule(id, true, protocol, port, "", ""))
  }

  /** A file is taken for a rule exactly if it names a port that is a number other than zero and a protocol. */
  lemma ReadRuleMeaning(id: string, body: string)
    ensures ReadRule(id, body).Some? <==>
              && Attribute(body, PORT_MARK).Some? && Attribute(body, PROTOCOL_MARK).Some?
              && Atoi(Attribute(body, PORT_MARK).value).Some? && Atoi(Attribute(body, PORT_MARK).value) != Some(0)
    ensures ReadRule(id, body).Some? ==>
              var rule := ReadRule(id, body).value;
              && rule == Rule(id, true, Attribute(body, PROTOCOL_MARK).value, rule.port, "", "")
              && Atoi(Attribute(body, PORT_MARK).value) == Some(rule.port)
  {
    hide Atoi, Index;
  }

  /** The characters `c` and `d` never stand next to each other, in this order. */
  predicate NoPair(s: string, c: char, d: char) {
    forall k :: 0 <= k < |s| - 1 ==> s[k] != c || s[k + 1] != d
  }

  predicate Meets(x: string, y: string, c: char, d: char) {
    x != [] && y != [] && x[|x| - 1] == c && y[0] == d
  }

  lemma {:induction false} FlatHasNoPair(pieces: seq<string>, c: char, d: char)
    requires forall i :: 0 <= i < |pieces| ==> pieces[i] != [] && (c !in pieces[i] || d !in pieces[i])
    requires forall i :: 0 <= i < |pieces| - 1 ==> !Meets(pieces[i], pieces[i + 1], c, d)
    ensures NoPair(Flat(pieces), c, d)
    ensures pieces != [] ==> |Flat(pieces)| > 0 && Flat(pieces)[|Flat(pieces)| - 1] == pieces[|pieces| - 1][|pieces[|pieces| - 1]| - 1]
  {
    if pieces != [] {
      var init, last := pieces[..|pieces| - 1], pieces[|pieces| - 1];
      FlatHasNoPair(init, c, d);
      if init != [] {
        assert !Meets(pieces[|init| - 1], pieces[|init|], c, d);
      }
      NoPairJoined(Flat(init), last, c, d);
    }
  }

  lemma NoPairJoined(x: string, y: string, c: char, d: char)
    requires NoPair(x, c, d) && (c !in y || d !in y) && !Meets(x, y, c, d)
    ensures NoPair(x + y, c, d)
  {
    var s := x + y;
    forall k | 0 <= k < |s| - 1
      ensures s[k] != c || s[k + 1] != d
    {
      if k >= |x| {
        assert s[k] == y[k - |x|] && s[k + 1] == y[k + 1 - |x|];
        assert s[k] in y && s[k + 1] in y;
      }
    }
  }

  /** A mark is first found where it was put, if a pair inside it cannot occur earlier. */
  lemma FirstMark(before: string, mark: string, after: string, j: nat)
    requires j + 1 < |mark| && NoPair(before + mark[..j + 1], mark[j], mark[j + 1])
    ensures Index(before + mark + after, mark) == |before|
  {
    var s := before + mark + after;
    assert s[|before|..|before| + |mark|] == mark;
    assert OccursAt(s, mark, |before|);
    var t := before + mark[..j + 1];
    forall i | 0 <= i < |before|
      ensures !OccursAt(s, mark, i)
    {
      assert t[i + j] != mark[j] || t[i + j + 1] != mark[j + 1];
      assert t[i + j] == s[i + j] && t[i + j + 1] == s[i + j + 1];
      if i + |mark| <= |s| {
        assert s[i..i + |mark|][j] == s[i + j] && s[i..i + |mark|][j + 1] == s[i + j + 1];
      }
    }
  }

  lemma AttributeFound(body: string, before: string, mark: string, value: string, after: string)
    requires body == before + mark + (value + ['"'] + after) && Index(body, mark) == |before|
    requires value != [] && '"' !in value
    ensures Attribute(body, mark) == Some(value)
  {
    hide Index, IndexByte;
    var rest := value + ['"'] + after;
    assert body[|before| + |mark|..] == rest;
    IndexByteAt(value, '"', after);
    assert rest[..|value|] == value;
  }

  lemma NameChars(ns: string, id: string)
    requires ValidNamespace(ns) && ValidId(id)
    ensures ns != [] && ServiceName(ns, id) != []
    ensures ' ' !in ns && '=' !in ns && ' ' !in ServiceName(ns, id) && '=' !in ServiceName(ns, id)
  {
    var name := ServiceName(ns, id);
    forall i | 0 <= i < |name|
      ensures name[i] != ' ' && name[i] != '='
    {
      assert name[i] == if i < |ns| then ns[i] else if i == |ns| then '-' else id[i - |ns| - 1];
    }
  }

  lemma PortMarkStart()
    ensures PORT_MARK[..5] == "port" + " "
  {
  }

  lemma FlatSnoc(pieces: seq<string>, last: string)
    ensures Flat(pieces + [last]) == Flat(pieces) + last
  {
    assert (pieces + [last])[..|pieces|] == pieces;
  }

  lemma HeadHasNoSpaceP(ns: string, id: string)
    requires ValidNamespace(ns) && ValidId(id)
    ensures NoPair(Flat(HeadPieces(ns, id)) + PORT_MARK[..5], ' ', 'p')
  {
    hide Flat, NoPair, ValidNamespace, ValidId, ServiceName;
    NameChars(ns, id);
    var pieces := HeadPieces(ns, id) + ["port", " "];
    FlatHasNoPair(pieces, ' ', 'p');
    FlatSnoc(HeadPieces(ns, id), "port");
    FlatSnoc(HeadPieces(ns, id) + ["port"], " ");
    assert pieces == HeadPieces(ns, id) + ["port"] + [" "];
    PortMarkStart();
    assert Flat(HeadPieces(ns, id)) + "port" + " " == Flat(HeadPieces(ns, id)) + PORT_MARK[..5];
  }

  lemma HeadHasNoEquals(ns: string, id: string, port: nat)
    requires ValidNamespace(ns) && ValidId(id)
    ensures NoPair(Flat(HeadPieces(ns, id)) + PORT_MARK + Decimal(port) + "\" " + PROTOCOL_MARK[..8], 'l', '=')
  {
    hide Flat, NoPair, Decimal, ValidNamespace, ValidId, ServiceName;
    NameChars(ns, id);
    var digits := Decimal(port);
    assert AllDigits(digits);
    var head := HeadPieces(ns, id);
    var pieces := head + ["port", " port", "=\"", digits, "\" ", "protocol"];
    FlatHasNoPair(pieces, 'l', '=');
    FlatSix(head, "port", " port", "=\"", digits, "\" ", "protocol");
    assert PORT_MARK == "port" + " port" + "=\"";
    assert PROTOCOL_MARK[..8] == "protocol";
  }

  lemma FlatSix(head: seq<string>, a: string, b: string, c: string, d: string, e: string, f: string)
    ensures Flat(head + [a, b, c, d, e, f]) == Flat(head) + (a + b + c) + d + e + f
  {
    hide Flat;
    FlatSnoc(head, a);
    FlatSnoc(head + [a], b);
    FlatSnoc(head + [a] + [b], c);
    FlatSnoc(head + [a] + [b] + [c], d);
    FlatSnoc(head + [a] + [b] + [c] + [d], e);
    FlatSnoc(head + [a] + [b] + [c] + [d] + [e], f);
    assert head + [a, b, c, d, e, f] == head + [a] + [b] + [c] + [d] + [e] + [f];
    assert Flat(head) + a + b + c + d + e + f == Flat(head) + (a + b + c) + d + e + f;
  }

  /** The service file line by line, up to the port element's name. */
  lemma HeadLines(ns: string, id: string)
    ensures Flat(HeadPieces(ns, id)) ==
            "<?xml version=\"1.0\"" + " encoding=\"utf-8\"?>\n" + "<service>\n" +
            "  <short>" + ServiceName(ns, id) + "</short>\n" +
            "  <description>" + ns + " managed rule</description>\n" +
            "  <"
  {
    hide Flat, ServiceName;
    var name := ServiceName(ns, id);
    var a := ["<?xml", " version", "=\"1.0\"", " encoding", "=\"utf-8\"?>\n<service>\n", " "];
    var b := [" <short>", name, "</short>\n", " ", " <", "description>"];
    var c := [ns, " managed", " rule</", "description>\n", " ", " <"];
    FlatSix([], "<?xml", " version", "=\"1.0\"", " encoding", "=\"utf-8\"?>\n<service>\n", " ");
    FlatSix(a, " <short>", name, "</short>\n", " ", " <", "description>");
    FlatSix(a + b, ns, " managed", " rule</", "description>\n", " ", " <");
    assert [] + a == a && HeadPieces(ns, id) == a + b + c;
    FlatNothing();
    var x := "<?xml version=\"1.0\"" + " encoding=\"utf-8\"?>\n" + "<service>\n";
    assert Flat(a) == x + " " by { FirstLine(); }
    HeadRegroup(x, name, ns);
  }

  lemma FirstLine()
    ensures [] + ("<?xml" + " version" + "=\"1.0\"") + " encoding" + "=\"utf-8\"?>\n<service>\n" + " " ==
            "<?xml version=\"1.0\"" + " encoding=\"utf-8\"?>\n" + "<service>\n" + " "
  {
    assert "<?xml" + " version" + "=\"1.0\"" == "<?xml version=\"1.0\"";
    assert " encoding=\"utf-8\"?>\n" == " encoding" + "=\"utf-8\"?>\n";
    assert "=\"utf-8\"?>\n" + "<service>\n" == "=\"utf-8\"?>\n<service>\n";
    FirstRegroup("<?xml version=\"1.0\"", " encoding", "=\"utf-8\"?>\n", "<service>\n");
  }

  lemma FirstRegroup(a: string, b: string, c: string, d: string)
    ensures [] + a + b + (c + d) + " " == a + (b + c) + d + " "
  {
  }

  lemma FlatNothing()
    ensures Flat([]) == []
  {
  }

  lemma HeadRegroup(x: string, name: string, ns: string)
    ensures x + " " + (" <short>" + name + "</short>\n") + " " + " <" + "description>" +
            (ns + " managed" + " rule</") + "description>\n" + " " + " <" ==
            x + "  <short>" + name + "</short>\n" + "  <description>" + ns + " managed rule</description>\n" + "  <"
  {
    assert " " + " <short>" == "  <short>";
    assert " " + " <" + "description>" == "  <description>";
    assert " managed" + " rule</" + "description>\n" == " managed rule</description>\n";
    assert " " + " <" == "  <";
    FirstHalf(x, " ", " <short>", name, "</short>\n", " <", "description>");
    var y := x + (" " + " <short>") + name + "</short>\n" + (" " + " <" + "description>");
    SecondHalf(y, ns, " managed", " rule</", "description>\n", " ", " <");
  }

  lemma FirstHalf(x: string, gap: string, open: string, name: string, close: string, bracket: string, tag: string)
    ensures x + gap + (open + name + close) + gap + bracket + tag == x + (gap + open) + name + close + (gap + bracket + tag)
  {
  }

  lemma SecondHalf(y: string, ns: string, a: string, b: string, c: string, gap: string, bracket: string)
    ensures y + (ns + a + b) + c + gap + bracket == y + ns + (a + b + c) + (gap + bracket)
  {
  }

  lemma PortRead(ns: string, rule: Rule)
    requires ValidNamespace(ns) && Accepts(rule)
    ensures Attribute(ServiceXml(ns, rule), PORT_MARK) == Some(Decimal(rule.port))
  {
    hide Flat, HeadPieces, Index, Decimal, NoPair, Attribute, ServiceXml, ValidNamespace, ValidId;
    var head := Flat(HeadPieces(ns, rule.id));
    var digits := Decimal(rule.port);
    var after := " " + PROTOCOL_MARK + rule.protocol + "\"/>\n</service>\n";
    var body := ServiceXml(ns, rule);
    XmlFromPort(ns, rule, head, digits, after);
    HeadHasNoSpaceP(ns, rule.id);
    PortMarkPair();
    FirstMark(head, PORT_MARK, digits + ['"'] + after, 4);
    NoQuote(rule.port);
    AttributeFound(body, head, PORT_MARK, digits, after);
  }

  lemma XmlFromPort(ns: string, rule: Rule, head: string, digits: string, after: string)
    requires rule.port >= 0 && head == Flat(HeadPieces(ns, rule.id)) && digits == Decimal(rule.port)
    requires after == " " + PROTOCOL_MARK + rule.protocol + "\"/>\n</service>\n"
    ensures ServiceXml(ns, rule) == head + PORT_MARK + (digits + ['"'] + after)
  {
    hide Flat, HeadPieces, Decimal;
    assert "\" " == ['"'] + " ";
  }

  lemma XmlFromProtocol(ns: string, rule: Rule, before: string, after: string)
    requires rule.port >= 0 && before == Flat(HeadPieces(ns, rule.id)) + PORT_MARK + Decimal(rule.port) + "\" "
    requires after == "/>\n</service>\n"
    ensures ServiceXml(ns, rule) == before + PROTOCOL_MARK + (rule.protocol + ['"'] + after)
  {
    hide Flat, HeadPieces, Decimal;
    assert "\"/>\n</service>\n" == ['"'] + "/>\n</service>\n";
  }

  lemma PortMarkPair()
    ensures |PORT_MARK| == 11 && PORT_MARK[4] == ' ' && PORT_MARK[5] == 'p'
    ensures |PROTOCOL_MARK| == 10 && PROTOCOL_MARK[7] == 'l' && PROTOCOL_MARK[8] == '='
  {
  }

  lemma NoQuote(n: nat)
    ensures '"' !in Decimal(n) && Decimal(n) != []
  {
    assert AllDigits(Decimal(n));
  }

  lemma ProtocolRead(ns: string, rule: Rule)
    requires ValidNamespace(ns) && Accepts(rule)
    ensures Attribute(ServiceXml(ns, rule), PROTOCOL_MARK) == Some(rule.protocol)
  {
    hide Flat, HeadPieces, Index, Decimal, NoPair, Attribute, ServiceXml, ValidNamespace, ValidId;
    var before := Flat(HeadPieces(ns, rule.id)) + PORT_MARK + Decimal(rule.port) + "\" ";
    var after := "/>\n</service>\n";
    XmlFromProtocol(ns, rule, before, after);
    HeadHasNoEquals(ns, rule.id, rule.port);
    PortMarkPair();
    FirstMark(before, PROTOCOL_MARK, rule.protocol + ['"'] + after, 7);
    AttributeFound(ServiceXml(ns, rule), before, PROTOCOL_MARK, rule.protocol, after);
  }

  /** The rule read back from a service file is the rule it was rendered from. */
  lemma XmlRoundTrip(ns: string, rule: Rule)
    requires ValidNamespace(ns) && Accepts(rule)
    ensures ReadRule(rule.id, ServiceXml(ns, rule)) == Some(rule)
  {
    hide Attribute, ServiceXml, Decimal, Atoi, ValidNamespace, ValidId;
    PortRead(ns, rule);
    ProtocolRead(ns, rule);
    AtoiDecimal(rule.port);
  }

  // ----- operations -----

  function Without(names: seq<string>, name: string): seq<string> {
    if names == [] then []
    else
      var init := Without(names[..|names| - 1], name);
      if names[|names| - 1] == name then init else init + [names[|names| - 1]]
  }

  /** `firewall-cmd --reload`: the permanent configuration takes effect. */
  function Reloaded(host: Host): Host {
    host.(loaded := host.files, active := host.zone)
  }

  /** What is configured is in effect. */
  predicate InEffect(host: Host) {
    host.loaded == host.files && host.active == host.zone
  }

  /** `--permanent --add-service`, which is refused for a service that is not loaded. */
  function Enabled(host: Host, name: string): Host {
    if name in host.zone then host else host.(zone := host.zone + [name])
  }

  /** The commands and file operations of this backend. Which of them fail is up to the host. */
  datatype Call =
    | DefaultZone | ListServicesCall | AddService | RemoveService | Reload | ReloadAgain
    | WriteFile | DeleteFile | ReadFile(name: string)

  /** The rule's file is in place, the service not yet enabled. */
  function Filed(host: Host, ns: string, rule: Rule): Host
    requires rule.port >= 0
  {
    host.(files := host.files[ServiceName(ns, rule.id) := ServiceXml(ns, rule)])
  }

  /** The service is no longer enabled, its file still there. */
  function Disabled(host: Host, ns: string, id: string): Host {
    host.(zone := Without(host.zone, ServiceName(ns, id)))
  }

  function Applied(host: Host, ns: string, rule: Rule): Host
    requires rule.port >= 0
  {
    Reloaded(Enabled(Filed(host, ns, rule), ServiceName(ns, rule.id)))
  }

  function Removed(host: Host, ns: string, id: string): Host {
    Reloaded(Unfiled(host, ns, id))
  }

  /** The service is neither enabled nor defined any more, which has not taken effect. */
  function Unfiled(host: Host, ns: string, id: string): Host {
    var name := ServiceName(ns, id);
    host.(files := host.files - {name}, zone := Without(host.zone, name))
  }

  /** The output of `firewall-cmd --list-services`. */
  function ListServices(host: Host): string {
    Join(host.zone) + "\n"
  }

  /** firewalldFilterNamespaceServices: the ids behind the namespace's prefix. */
  function NamespaceIds(names: seq<string>, ns: string): seq<string> {
    if names == [] then []
    else
      var init, last := NamespaceIds(names[..|names| - 1], ns), names[|names| - 1];
      if ns + "-" <= last then init + [last[|ns| + 1..]] else init
  }

  lemma {:induction false} IdsAppend(a: seq<string>, b: seq<string>, ns: string)
    ensures NamespaceIds(a + b, ns) == NamespaceIds(a, ns) + NamespaceIds(b, ns)
  {
    if b == [] {
      assert a + b == a;
    } else {
      IdsAppend(a, b[..|b| - 1], ns);
      assert (a + b)[..|a + b| - 1] == a + b[..|b| - 1];
    }
  }

  /** The ids come in the order of the listing, each the part of its name behind the prefix; a name without the
      prefix gives none. */
  lemma IdsInOrder(a: seq<string>, name: string, b: seq<string>, ns: string)
    ensures !(ns + "-" <= name) ==> NamespaceIds(a + [name] + b, ns) == NamespaceIds(a, ns) + NamespaceIds(b, ns)
    ensures forall id :: name == ServiceName(ns, id) ==>
              NamespaceIds(a + [name] + b, ns) == NamespaceIds(a, ns) + [id] + NamespaceIds(b, ns)
  {
    IdsAppend(a + [name], b, ns);
    assert (a + [name])[..|a|] == a;
    forall id | name == ServiceName(ns, id)
      ensures ns + "-" <= name && name[|ns| + 1..] == id
    {
    }
  }

  /** The rules of those ids whose files can be read. */
  function Rules(files: map<string, string>, ns: string, ids: seq<string>): seq<Rule> {
    if ids == [] then []
    else
      var init, id := Rules(files, ns, ids[..|ids| - 1]), ids[|ids| - 1];
      var name := ServiceName(ns, id);
      if name in files && ReadRule(id, files[name]).Some? then init + [ReadRule(id, files[name]).value] else init
  }

  function ListedIds(host: Host, ns: string): seq<string> {
    NamespaceIds(Fields(ListServices(host)), ns)
  }

  function ListRules(host: Host, ns: string): seq<Rule> {
    Rules(host.files, ns, ListedIds(host, ns))
  }

  // A file that cannot be read.

  predicate IsReadable(fails: set<Call>, ns: string, id: string) {
    ReadFile(ServiceName(ns, id)) !in fails
  }

  /** The ids whose files can be read. */
  function Readable(ids: seq<string>, ns: string, fails: set<Call>): seq<string> {
    if ids == [] then []
    else Readable(ids[..|ids| - 1], ns, fails) + if IsReadable(fails, ns, ids[|ids| - 1]) then [ids[|ids| - 1]] else []
  }

  lemma ReadableMore(ids: seq<string>, ns: string, fails: set<Call>, id: string)
    ensures Readable(ids + [id], ns, fails) == Readable(ids, ns, fails) + if IsReadable(fails, ns, id) then [id] else []
  {
    assert (ids + [id])[..|ids|] == ids;
  }

  lemma RulesMore(files: map<string, string>, ns: string, ids: seq<string>, id: string)
    ensures Rules(files, ns, ids + [id]) == Rules(files, ns, ids) + RuleHere(files, ns, id)
  {
    assert (ids + [id])[..|ids|] == ids;
  }

  /** `a` is `b` with some elements left out. */
  predicate Subsequence(a: seq<Rule>, b: seq<Rule>)
    decreases |b|
  {
    if b == [] then a == []
    else
      || (a != [] && a[|a| - 1] == b[|b| - 1] && Subsequence(a[..|a| - 1], b[..|b| - 1]))
      || Subsequence(a, b[..|b| - 1])
  }

  lemma SubsequenceMore(a: seq<Rule>, b: seq<Rule>, more: seq<Rule>)
    requires Subsequence(a, b) && |more| <= 1
    ensures Subsequence(a, b + more) && Subsequence(a + more, b + more)
  {
    if more == [] {
      assert a + more == a && b + more == b;
    } else {
      assert (b + more)[..|b|] == b && (a + more)[..|a|] == a;
    }
  }

  /** What the file of one id gives. */
  function RuleHere(files: map<string, string>, ns: string, id: string): seq<Rule> {
    var name := ServiceName(ns, id);
    if name in files && ReadRule(id, files[name]).Some? then [ReadRule(id, files[name]).value] else []
  }

  /** What List returns when files cannot be read: the full list in order, without exactly the rules whose files
      those are. */
  lemma {:induction false} UnreadAreMissing(files: map<string, string>, ns: string, ids: seq<string>, fails: set<Call>)
    ensures Subsequence(Rules(files, ns, Readable(ids, ns, fails)), Rules(files, ns, ids))
    ensures forall r :: r in Rules(files, ns, Readable(ids, ns, fails)) <==>
              r in Rules(files, ns, ids) && IsReadable(fails, ns, r.id)
  {
    hide RuleHere, Subsequence, Rules, Readable, IsReadable;
    if ids == [] {
      RulesOfNone(files, ns, fails);
    } else {
      var init, id := ids[..|ids| - 1], ids[|ids| - 1];
      assert ids == init + [id];
      UnreadAreMissing(files, ns, init, fails);
      RulesMore(files, ns, init, id);
      RulesMore(files, ns, Readable(init, ns, fails), id);
      ReadableMore(init, ns, fails, id);
      ReadRuleId(files, ns, id);
      SubsequenceMore(Rules(files, ns, Readable(init, ns, fails)), Rules(files, ns, init), RuleHere(files, ns, id));
      assert Readable(init, ns, fails) + [] == Readable(init, ns, fails);
    }
  }

  /** With every file readable nothing is missing. */
  lemma {:induction false} AllReadable(ids: seq<string>, ns: string, fails: set<Call>)
    requires forall id :: id in ids ==> IsReadable(fails, ns, id)
    ensures Readable(ids, ns, fails) == ids
  {
    if ids != [] {
      AllReadable(ids[..|ids| - 1], ns, fails);
      assert ids == ids[..|ids| - 1] + [ids[|ids| - 1]];
    }
  }

  lemma RulesOfNone(files: map<string, string>, ns: string, fails: set<Call>)
    ensures Rules(files, ns, []) == [] && Readable([], ns, fails) == [] && Subsequence([], [])
  {
  }

  lemma ReadRuleId(files: map<string, string>, ns: string, id: string)
    ensures |RuleHere(files, ns, id)| <= 1 && forall r :: r in RuleHere(files, ns, id) ==> r.id == id
  {
    hide Attribute;
  }

  /** The two permanent configurations differ at most in the service `name`. */
  ghost predicate DifferOnlyIn(h: Host, h': Host, name: string) {
    && (forall n :: n != name ==> (n in h.files <==> n in h'.files) && (n in h.files ==> h.files[n] == h'.files[n]))
    && (forall n :: n != name ==> (n in h.zone <==> n in h'.zone))
  }

  lemma {:induction false} WithoutElements(names: seq<string>, name: string)
    ensures forall n :: n in Without(names, name) <==> n in names && n != name
  {
    if names != [] {
      WithoutElements(names[..|names| - 1], name);
      assert names == names[..|names| - 1] + [names[|names| - 1]];
    }
  }

  predicate ValidZone(zone: seq<string>) {
    && (forall i :: 0 <= i < |zone| ==> IsWord(zone[i]))
    && (forall i, j :: 0 <= i < j < |zone| ==> zone[i] != zone[j])
  }

  /** How far an ApplyRule that fails may have got. */
  predicate Partly(host: Host, host': Host, ns: string, rule: Rule, fails: set<Call>)
    requires rule.port >= 0
  {
    var filed := Filed(host, ns, rule);
    || (host' == filed && (WriteFile in fails || Reload in fails))
    || (host' == Reloaded(filed) && AddService in fails)
    || (host' == Enabled(Reloaded(filed), ServiceName(ns, rule.id)) && ReloadAgain in fails)
  }

  class Firewall {
    var host: Host

    /** ApplyRule: write the file, reload, enable, reload. */
    method ApplyRule(ns: string, rule: Rule, isAddress: string -> bool, fails: set<Call>) returns (ok: bool)
      modifies this
      ensures ok <==> Accepts(rule) && fails !! {DefaultZone, WriteFile, Reload, AddService, ReloadAgain}
      ensures ok ==> host == Applied(old(host), ns, rule)
      ensures !Accepts(rule) || DefaultZone in fails ==> host == old(host)
      ensures !ok ==> host == old(host) || (Accepts(rule) && Partly(old(host), host, ns, rule, fails))
      ensures DifferOnlyIn(old(host), host, ServiceName(ns, rule.id))
      ensures ValidNamespace(ns) ==> Outcome(old(host), Apply(ns, rule), ok, host)
    {
      hide ServiceXml, SharedAccepts, BackendAccepts, Accepts;
      ValidatorsTogether(rule, isAddress);
      if !SharedAccepts(rule, isAddress) {
        return false;
      }
      if !BackendAccepts(rule) {
        return false;
      }
      if DefaultZone in fails {
        return false;
      }
      var name := ServiceName(ns, rule.id);
      assert rule.port > 0 by { AcceptedPort(rule); }
      var replaced := *;   // a write can fail on ownership after the content is in place
      if WriteFile !in fails || replaced {
        host := host.(files := host.files[name := ServiceXml(ns, rule)]);
      }
      if WriteFile in fails {
        return false;
      }
      if Reload in fails {
        return false;
      }
      host := Reloaded(host);
      if AddService in fails || name !in host.loaded {
        return false;
      }
      host := Enabled(host, name);
      if ReloadAgain in fails {
        return false;
      }
      host := Reloaded(host);
      return true;
    }

    /** RemoveRule: disable if enabled, delete the file, reload. */
    method RemoveRule(ns: string, id: string, fails: set<Call>) returns (ok: bool)
      requires ValidZone(host.zone)
      modifies this
      ensures var name := ServiceName(ns, id);
              ok <==> && ValidId(id) && fails !! {DefaultZone, ListServicesCall, DeleteFile, Reload}
                      && (name in old(host).zone ==> RemoveService !in fails)
      ensures ok ==> host == Removed(old(host), ns, id)
      ensures !ValidId(id) || DefaultZone in fails || ListServicesCall in fails ==> host == old(host)
      ensures !ok ==>
                || host == old(host)
                || (DeleteFile in fails && host == Disabled(old(host), ns, id))
                || (Reload in fails && host == Unfiled(old(host), ns, id))
      ensures !ok && ServiceName(ns, id) in host.zone ==> host == old(host)
      ensures DifferOnlyIn(old(host), host, ServiceName(ns, id))
      ensures ValidNamespace(ns) ==> Outcome(old(host), Remove(ns, id), ok, host)
    {
      hide Fields, Join, ValidZone, Without, ServiceName, ValidId;
      if !ValidId(id) {
        return false;
      }
      if DefaultZone in fails {
        return false;
      }
      var name := ServiceName(ns, id);
      WithoutElements(host.zone, name);
      ListedZone(host);
      if ListServicesCall in fails {
        return false;
      }
      var enabled := IsListed(ListServices(host), name);
      if enabled {
        if RemoveService in fails {
          return false;
        }
        host := host.(zone := Without(host.zone, name));
      } else {
        WithoutAbsent(host.zone, name);
      }
      if DeleteFile in fails {
        return false;
      }
      host := host.(files := host.files - {name});
      if Reload in fails {
        return false;
      }
      host := Reloaded(host);
      return true;
    }

    /** List: the zone's services, filtered by prefix, each read from its file. A file that cannot be read is
        skipped. */
    method List(ns: string, fails: set<Call>) returns (r: Option<seq<Rule>>)
      ensures r.Some? <==> DefaultZone !in fails && ListServicesCall !in fails
      ensures r.Some? ==> Subsequence(r.value, ListRules(host, ns))
      ensures r.Some? ==> forall rule :: rule in r.value <==> rule in ListRules(host, ns) && IsReadable(fails, ns, rule.id)
      ensures r.Some? && (forall id :: id in ListedIds(host, ns) ==> IsReadable(fails, ns, id)) ==> r.value == ListRules(host, ns)
    {
      hide Rules, Readable, Subsequence, NamespaceIds, Fields, IsReadable;
      if DefaultZone in fails {
        return None;
      }
      if ListServicesCall in fails {
        return None;
      }
      var ids := FilterNamespace(ListServices(host), ns);
      var rules := ReadRules(ns, ids, fails);
      UnreadAreMissing(host.files, ns, ids, fails);
      if forall id :: id in ids ==> IsReadable(fails, ns, id) {
        AllReadable(ids, ns, fails);
      }
      return Some(rules);
    }

    /** The loop of List over the ids. */
    method ReadRules(ns: string, ids: seq<string>, fails: set<Call>) returns (rules: seq<Rule>)
      ensures rules == Rules(host.files, ns, Readable(ids, ns, fails))
    {
      hide Rules, Readable, ReadRule;
      RulesOfNone(host.files, ns, fails);
      rules := [];
      for i := 0 to |ids|
        invariant rules == Rules(host.files, ns, Readable(ids[..i], ns, fails))
      {
        ghost var before := Readable(ids[..i], ns, fails);
        ReadableMore(ids[..i], ns, fails, ids[i]);
        RulesMore(host.files, ns, before, ids[i]);
        assert ids[..i + 1] == ids[..i] + [ids[i]];
        assert before + [] == before;
        var name := ServiceName(ns, ids[i]);
        if ReadFile(name) !in fails && name in host.files {
          var rule := ReadRule(ids[i], host.files[name]);
          if rule.Some? {
            rules := rules + [rule.value];
          }
        }
      }
      assert ids[..|ids|] == ids;
    }
  }

  lemma AcceptedPort(rule: Rule)
    requires Accepts(rule)
    ensures rule.port > 0
  {
  }

  lemma ListedZone(host: Host)
    requires ValidZone(host.zone)
    ensures Fields(ListServices(host)) == host.zone
  {
    hide Fields, Join;
    FieldsOfJoin(host.zone, "\n");
  }

  /** firewalldServiceIsEnabled: the loop over the listing's fields. */
  method IsListed(output: string, name: string) returns (listed: bool)
    ensures listed <==> name in Fields(output)
  {
    hide Fields;
    var fields := Fields(output);
    for i := 0 to |fields|
      invariant name !in fields[..i]
    {
      if fields[i] == name {
        return true;
      }
      assert fields[..i + 1] == fields[..i] + [fields[i]];
    }
    assert fields[..|fields|] == fields;
    return false;
  }

  /** firewalldFilterNamespaceServices. */
  method FilterNamespace(output: string, ns: string) returns (ids: seq<string>)
    ensures ids == NamespaceIds(Fields(output), ns)
  {
    var fields := Fields(output);
    ids := [];
    for i := 0 to |fields|
      invariant ids == NamespaceIds(fields[..i], ns)
    {
      assert fields[..i + 1][..i] == fields[..i];
      if ns + "-" <= fields[i] {
        ids := ids + [fields[i][|ns| + 1..]];
      }
    }
    assert fields[..|fields|] == fields;
  }

  lemma {:induction false} WithoutAbsent(names: seq<string>, name: string)
    requires name !in names
    ensures Without(names, name) == names
  {
    if names != [] {
      var init := names[..|names| - 1];
      assert names == init + [names[|names| - 1]];
      WithoutAbsent(init, name);
    }
  }

  // ----- histories of several managers -----

  datatype Op = Apply(ns: string, rule: Rule) | Remove(ns: string, id: string)

  predicate ValidOp(op: Op) {
    ValidNamespace(op.ns) && if op.Apply? then Accepts(op.rule) else ValidId(op.id)
  }

  predicate ValidOps(ops: seq<Op>) {
    forall i :: 0 <= i < |ops| ==> ValidOp(ops[i])
  }

  /** The host after a history of successful operations by any managers. */
  function After(host: Host, ops: seq<Op>): Host
    requires ValidOps(ops)
  {
    if ops == [] then host
    else
      var before, op := After(host, ops[..|ops| - 1]), ops[|ops| - 1];
      assert ValidOp(op);
      if op.Apply? then Applied(before, op.ns, op.rule) else Removed(before, op.ns, op.id)
  }

  /** Every operation that succeeds leaves what is configured in effect. */
  lemma AfterInEffect(host: Host, ops: seq<Op>)
    requires ValidOps(ops) && (InEffect(host) || ops != [])
    ensures InEffect(After(host, ops))
  {
    hide ServiceXml, Without;
  }

  /** A manager's rules after the history: the latest per id, as if it were alone. */
  function Latest(ops: seq<Op>, ns: string): map<string, Rule> {
    if ops == [] then map[]
    else
      var before, op := Latest(ops[..|ops| - 1], ns), ops[|ops| - 1];
      if op.ns != ns then before
      else if op.Apply? then before[op.rule.id := op.rule]
      else before - {op.id}
  }

  /** The zone lists the namespace's services for exactly these rules, and their files are up to date. */
  ghost predicate Mirrors(host: Host, ns: string, rules: map<string, Rule>) {
    && (forall name :: name in host.zone && ns + "-" <= name ==> name[|ns| + 1..] in rules)
    && (forall id :: id in rules ==> MirrorsRule(host, ns, id, rules[id]))
  }

  ghost predicate MirrorsRule(host: Host, ns: string, id: string, rule: Rule) {
    && rule.id == id && Accepts(rule)
    && ServiceName(ns, id) in host.zone
    && ServiceName(ns, id) in host.files && host.files[ServiceName(ns, id)] == ServiceXml(ns, rule)
  }

  lemma AppliedIs(host: Host, ns: string, rule: Rule)
    requires rule.port >= 0
    ensures var host' := Applied(host, ns, rule);
            && host'.files == host.files[ServiceName(ns, rule.id) := ServiceXml(ns, rule)]
            && forall n :: n in host'.zone <==> n in host.zone || n == ServiceName(ns, rule.id)
  {
    hide ServiceXml, ServiceName;
  }

  /** Another service of the namespace, or of any other, is as it was. */
  lemma OtherServices(ns: string, id: string, op: Op)
    requires ValidNamespace(ns) && ValidOp(op) && op.Apply? && !(op.ns == ns && id == op.rule.id)
    ensures ServiceName(ns, id) != ServiceName(op.ns, op.rule.id)
  {
    hide ValidNamespace, Accepts;
    if ServiceName(ns, id) == ServiceName(op.ns, op.rule.id) {
      NamesInjective(ns, id, op.ns, op.rule.id);
    }
  }

  /** What one manager's operation does to the services of every namespace. */
  lemma MirrorsApply(host: Host, ns: string, rules: map<string, Rule>, op: Op)
    requires ValidNamespace(ns) && Mirrors(host, ns, rules) && ValidOp(op) && op.Apply?
    ensures Mirrors(Applied(host, op.ns, op.rule), ns, if op.ns == ns then rules[op.rule.id := op.rule] else rules)
  {
    hide ServiceXml, ValidNamespace, Applied, Accepts;
    var name := ServiceName(op.ns, op.rule.id);
    assert op.rule.port > 0 by { AcceptedPort(op.rule); }
    AppliedIs(host, op.ns, op.rule);
    PrefixIsNamespace(ns, op.ns, op.rule.id);
    if op.ns == ns {
      assert name[|ns| + 1..] == op.rule.id;
    }
    forall id | id in rules && !(op.ns == ns && id == op.rule.id)
      ensures ServiceName(ns, id) != name
    {
      OtherServices(ns, id, op);
    }
  }

  lemma MirrorsRemove(host: Host, ns: string, rules: map<string, Rule>, op: Op)
    requires ValidNamespace(ns) && Mirrors(host, ns, rules) && ValidOp(op) && op.Remove?
    ensures Mirrors(Removed(host, op.ns, op.id), ns, if op.ns == ns then rules - {op.id} else rules)
  {
    hide ServiceXml, ValidNamespace;
    var name := ServiceName(op.ns, op.id);
    WithoutElements(host.zone, name);
    forall id | id in rules && !(op.ns == ns && id == op.id)
      ensures ServiceName(ns, id) != name
    {
      if ServiceName(ns, id) == name {
        NamesInjective(ns, id, op.ns, op.id);
      }
    }
    forall n | n in host.zone && n != name && ns + "-" <= n
      ensures op.ns == ns ==> n[|ns| + 1..] != op.id
    {
      assert n == ns + "-" + n[|ns| + 1..];
    }
  }

  lemma {:induction false} AfterMirrors(host: Host, ops: seq<Op>, ns: string)
    requires ValidOps(ops) && ValidNamespace(ns)
    requires forall name :: name in host.zone ==> !(ns + "-" <= name)
    ensures Mirrors(After(host, ops), ns, Latest(ops, ns))
  {
    hide Mirrors, Applied, Removed, ValidOp, ValidNamespace;
    if ops == [] {
      MirrorsNothing(host, ns);
    } else {
      var init, op := ops[..|ops| - 1], ops[|ops| - 1];
      assert ValidOp(op) && ValidOps(init);
      AfterMirrors(host, init, ns);
      if op.Apply? {
        MirrorsApply(After(host, init), ns, Latest(init, ns), op);
      } else {
        MirrorsRemove(After(host, init), ns, Latest(init, ns), op);
      }
    }
  }

  lemma MirrorsNothing(host: Host, ns: string)
    requires forall name :: name in host.zone ==> !(ns + "-" <= name)
    ensures Mirrors(host, ns, map[])
  {
  }

  lemma {:induction false} WithoutValid(zone: seq<string>, name: string)
    requires ValidZone(zone)
    ensures ValidZone(Without(zone, name))
  {
    hide IsWord;
    if zone != [] {
      var init := zone[..|zone| - 1];
      WithoutValid(init, name);
      WithoutElements(init, name);
      assert forall i :: 0 <= i < |Without(init, name)| ==> Without(init, name)[i] in init;
    }
  }

  lemma {:induction false} AfterValidZone(host: Host, ops: seq<Op>)
    requires ValidOps(ops) && ValidZone(host.zone)
    ensures ValidZone(After(host, ops).zone)
  {
    hide ServiceXml, IsWord;
    if ops != [] {
      var init, op := ops[..|ops| - 1], ops[|ops| - 1];
      assert ValidOp(op);
      AfterValidZone(host, init);
      if op.Apply? {
        NameIsWord(op.ns, op.rule.id);
      } else {
        WithoutValid(After(host, init).zone, ServiceName(op.ns, op.id));
      }
    }
  }

  lemma {:induction false} IdsOf(names: seq<string>, ns: string)
    ensures forall id :: id in NamespaceIds(names, ns) <==> ServiceName(ns, id) in names
    ensures (forall i, j :: 0 <= i < j < |names| ==> names[i] != names[j]) ==>
              forall i, j :: 0 <= i < j < |NamespaceIds(names, ns)| ==> NamespaceIds(names, ns)[i] != NamespaceIds(names, ns)[j]
  {
    if names != [] {
      var init, last := names[..|names| - 1], names[|names| - 1];
      IdsOf(init, ns);
      assert names == init + [last];
      forall id
        ensures ServiceName(ns, id) == last <==> ns + "-" <= last && id == last[|ns| + 1..]
      {
      }
      if ns + "-" <= last && (forall i, j :: 0 <= i < j < |names| ==> names[i] != names[j]) {
        assert last !in init;
        assert ServiceName(ns, last[|ns| + 1..]) == last;
        assert last[|ns| + 1..] !in NamespaceIds(init, ns);
      }
    }
  }

  lemma {:induction false} RulesOf(host: Host, ns: string, latest: map<string, Rule>, ids: seq<string>)
    requires ValidNamespace(ns) && Mirrors(host, ns, latest)
    requires forall i :: 0 <= i < |ids| ==> ids[i] in latest
    ensures |Rules(host.files, ns, ids)| == |ids|
    ensures forall i :: 0 <= i < |ids| ==> Rules(host.files, ns, ids)[i] == latest[ids[i]]
  {
    hide ReadRule, ServiceXml, ValidNamespace, Accepts;
    if ids != [] {
      var init, id := ids[..|ids| - 1], ids[|ids| - 1];
      RulesOf(host, ns, latest, init);
      assert MirrorsRule(host, ns, id, latest[id]);
      XmlRoundTrip(ns, latest[id]);
    }
  }

  /** On a host that starts with no service under the namespace's prefix, after any history of successful
      operations by managers of any namespaces, List returns exactly the namespace's latest rule per id, each
      once. */
  lemma ListIsLatest(host: Host, ops: seq<Op>, ns: string)
    requires ValidOps(ops) && ValidNamespace(ns) && ValidZone(host.zone)
    requires forall name :: name in host.zone ==> !(ns + "-" <= name)
    ensures ListedOnce(ListRules(After(host, ops), ns), Latest(ops, ns))
  {
    hide After, Latest, ValidOps, ValidNamespace, ListRules, ListedOnce, Mirrors, ValidZone;
    AfterMirrors(host, ops, ns);
    AfterValidZone(host, ops);
    ListMirrors(After(host, ops), ns, Latest(ops, ns));
  }

  /** The list holds exactly these rules, each once. */
  ghost predicate ListedOnce(rules: seq<Rule>, latest: map<string, Rule>) {
    && (forall r: Rule :: r in rules <==> r.id in latest && latest[r.id] == r)
    && (forall i, j :: 0 <= i < j < |rules| ==> rules[i].id != rules[j].id)
  }

  lemma ListMirrors(after: Host, ns: string, latest: map<string, Rule>)
    requires ValidNamespace(ns) && ValidZone(after.zone) && Mirrors(after, ns, latest)
    ensures ListedOnce(ListRules(after, ns), latest)
  {
    hide ValidNamespace, Rules, NamespaceIds, Fields, Join;
    FieldsOfJoin(after.zone, "\n");
    var ids := NamespaceIds(after.zone, ns);
    IdsOf(after.zone, ns);
    forall i | 0 <= i < |ids|
      ensures ids[i] in latest
    {
      assert ids[i] in ids;
      assert ServiceName(ns, ids[i])[|ns| + 1..] == ids[i];
    }
    RulesOf(after, ns, latest, ids);
    var rules := ListRules(after, ns);
    forall i | 0 <= i < |ids|
      ensures rules[i].id == ids[i]
    {
      assert MirrorsRule(after, ns, ids[i], latest[ids[i]]);
    }
    forall id | id in latest
      ensures id in ids && latest[id].id == id
    {
      assert MirrorsRule(after, ns, id, latest[id]);
    }
    forall r: Rule | r.id in latest && latest[r.id] == r
      ensures r in rules
    {
      var i :| 0 <= i < |ids| && ids[i] == r.id;
      assert rules[i] == r;
    }
  }

  // ----- histories with failures -----

  /** The service an operation is about. */
  function Named(op: Op): string {
    ServiceName(op.ns, if op.Apply? then op.rule.id else op.id)
  }

  /** What an operation may do to the permanent configuration: all of its work if it succeeds; otherwise nothing,
      or, if it was a valid one, any part of it. */
  ghost predicate Outcome(host: Host, op: Op, ok: bool, host': Host) {
    if ok then ValidOp(op) && host' == if op.Apply? then Applied(host, op.ns, op.rule) else Removed(host, op.ns, op.id)
    else host' == host || (ValidOp(op) && Part(host, op, host'))
  }

  ghost predicate Part(host: Host, op: Op, host': Host) {
    && DifferOnlyIn(host, host', Named(op))
    && (|| host'.zone == host.zone
        || (op.Apply? && Named(op) !in host.zone && host'.zone == host.zone + [Named(op)])
        || (op.Remove? && host'.zone == Without(host.zone, Named(op))))
  }

  ghost predicate IsHistory(hosts: seq<Host>, ops: seq<Op>, oks: seq<bool>) {
    && |hosts| == |ops| + 1 && |oks| == |ops|
    && forall i :: 0 <= i < |ops| ==> Outcome(hosts[i], ops[i], oks[i], hosts[i + 1])
  }

  /** The operations among the first `n` that succeeded. */
  function Succeeded(ops: seq<Op>, oks: seq<bool>, n: nat): seq<Op>
    requires n <= |ops| == |oks|
  {
    if n == 0 then [] else Succeeded(ops, oks, n - 1) + if oks[n - 1] then [ops[n - 1]] else []
  }

  lemma LatestMore(ops: seq<Op>, op: Op, ns: string)
    ensures Latest(ops + [op], ns) ==
            if op.ns != ns then Latest(ops, ns)
            else if op.Apply? then Latest(ops, ns)[op.rule.id := op.rule]
            else Latest(ops, ns) - {op.id}
  {
    assert (ops + [op])[..|ops|] == ops;
  }

  /** Another manager's failed operation does not touch what is there for this namespace. */
  lemma MirrorsPart(host: Host, host': Host, ns: string, rules: map<string, Rule>, op: Op)
    requires ValidNamespace(ns) && Mirrors(host, ns, rules) && ValidOp(op) && op.ns != ns && Part(host, op, host')
    ensures Mirrors(host', ns, rules)
  {
    hide ServiceXml, ValidNamespace, Without, Accepts;
    var id' := if op.Apply? then op.rule.id else op.id;
    PrefixIsNamespace(ns, op.ns, id');
    forall id | id in rules
      ensures ServiceName(ns, id) != Named(op)
    {
      if ServiceName(ns, id) == Named(op) {
        NamesInjective(ns, id, op.ns, id');
      }
    }
  }

  lemma ZoneStep(host: Host, op: Op, ok: bool, host': Host)
    requires Outcome(host, op, ok, host') && ValidZone(host.zone)
    ensures ValidZone(host'.zone)
  {
    hide ServiceXml, IsWord, Without, ValidId, ValidNamespace, DifferOnlyIn;
    if ValidOp(op) {
      NameIsWord(op.ns, if op.Apply? then op.rule.id else op.id);
      WithoutValid(host.zone, Named(op));
    }
  }

  lemma {:induction false} HistoryMirrors(hosts: seq<Host>, ops: seq<Op>, oks: seq<bool>, ns: string, n: nat)
    requires IsHistory(hosts, ops, oks) && n <= |ops| && ValidNamespace(ns) && ValidZone(hosts[0].zone)
    requires forall name :: name in hosts[0].zone ==> !(ns + "-" <= name)
    requires forall i :: 0 <= i < |ops| && ops[i].ns == ns ==> oks[i] || hosts[i + 1] == hosts[i]
    ensures Mirrors(hosts[n], ns, Latest(Succeeded(ops, oks, n), ns)) && ValidZone(hosts[n].zone)
  {
    hide Mirrors, Applied, Removed, ValidOp, ValidNamespace, ValidZone, Part, Latest;
    if n == 0 {
      MirrorsNothing(hosts[0], ns);
      LatestOfNone(ns);
    } else {
      HistoryMirrors(hosts, ops, oks, ns, n - 1);
      var before, op, after := hosts[n - 1], ops[n - 1], hosts[n];
      var done := Succeeded(ops, oks, n - 1);
      ZoneStep(before, op, oks[n - 1], after);
      LatestMore(done, op, ns);
      if oks[n - 1] {
        if op.Apply? {
          MirrorsApply(before, ns, Latest(done, ns), op);
        } else {
          MirrorsRemove(before, ns, Latest(done, ns), op);
        }
      } else {
        assert done + [] == done;
        if after != before {
          MirrorsPart(before, after, ns, Latest(done, ns), op);
        }
      }
    }
  }

  lemma LatestOfNone(ns: string)
    ensures Latest([], ns) == map[]
  {
  }

  /** A manager none of whose own operations got stuck halfway lists exactly its latest rule per id, whatever
      operations of other managers failed, and however far those had got. */
  lemma ListIsLatestDespiteOthers(hosts: seq<Host>, ops: seq<Op>, oks: seq<bool>, ns: string, n: nat)
    requires IsHistory(hosts, ops, oks) && n <= |ops| && ValidNamespace(ns) && ValidZone(hosts[0].zone)
    requires forall name :: name in hosts[0].zone ==> !(ns + "-" <= name)
    requires forall i :: 0 <= i < |ops| && ops[i].ns == ns ==> oks[i] || hosts[i + 1] == hosts[i]
    ensures ListedOnce(ListRules(hosts[n], ns), Latest(Succeeded(ops, oks, n), ns))
  {
    hide Outcome, Latest, ValidNamespace, ListRules, ListedOnce, Mirrors, ValidZone;
    HistoryMirrors(hosts, ops, oks, ns, n);
    ListMirrors(hosts[n], ns, Latest(Succeeded(ops, oks, n), ns));
  }
}
