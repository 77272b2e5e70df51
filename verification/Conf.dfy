/** The configuration file: lines to entries, entries to the list of time sources. */
module Conf {
  import opened Settings
  import opened Scanner

  const CONF_MAX_LINE: nat := 16384

  datatype Entry = Entry(key: string, value: Option<string>)

  datatype Source = Source(host: string, port: string, proxy: Option<string>, id: nat)

  // ---- conf_parse ----

  /** How much fgets() takes: through the first line feed, or as much as the buffer holds. */
  function LineLength(s: string, room: nat): (n: nat)
    ensures n <= |s| && n <= room
    ensures s != [] && room > 0 ==> n > 0
  {
    if s == [] || room == 0 then 0
    else if s[0] == '\n' then 1
    else 1 + LineLength(s[1..], room - 1)
  }

  predicate EndsText(c: char) {
    c == NUL || c == '\n' || c == '\r'
  }

  /** strip_newlines on a C string. */
  function Text(s: string): string {
    if s == [] || EndsText(s[0]) then [] else [s[0]] + Text(s[1..])
  }

  predicate Ignored(s: string) {
    s == [] || s[0] == '#'
  }

  /** strtok() with blanks and tabs: the length of the first token. */
  function TokenLength(s: string): (n: nat)
    ensures n <= |s|
  {
    if s == [] || s[0] == ' ' || s[0] == '\t' then 0 else 1 + TokenLength(s[1..])
  }

  function ParseText(s: string): Entry {
    var n := TokenLength(s);
    var rest := if n < |s| then s[n + 1..] else [];
    Entry(s[..n], if rest == [] then None else Some(SkipSpace(rest)))
  }

  function ParseLine(line: string): seq<Entry> {
    var s := SkipSpace(Text(line));
    if Ignored(s) then [] else [ParseText(s)]
  }

  function Parse(file: string): seq<Entry>
    decreases |file|
  {
    if file == [] then []
    else
      var n := LineLength(file, CONF_MAX_LINE - 1);
      ParseLine(file[..n]) + Parse(file[n..])
  }

  // ---- conf_parse as it edits its line buffer and links its list ----

  /** The text before the first `ch`. */
  function Before(s: string, ch: char): string {
    if s == [] || s[0] == ch then [] else [s[0]] + Before(s[1..], ch)
  }

  /** Cutting at the first line feed and then at the first carriage return leaves the text. */
  lemma {:induction false} TextIsCutTwice(s: string)
    ensures Text(s) == Before(Before(CStr(s), '\n'), '\r')
  {
    if s != [] && !EndsText(s[0]) { TextIsCutTwice(s[1..]); }
  }

  /** A buffer that holds a C string. */
  predicate Terminated(s: string) {
    NUL in s
  }

  lemma {:induction false} CStrAt(s: string, i: nat)
    requires i < |s| && s[i] == NUL && NUL !in s[..i]
    ensures CStr(s) == s[..i]
  {
    if i > 0 {
      assert s[1..][..i - 1] == s[1..i] && s[..i] == [s[0]] + s[1..i];
      CStrAt(s[1..], i - 1);
    }
  }

  lemma {:induction false} BeforeAt(s: string, ch: char, i: nat)
    requires i <= |s| && ch !in s[..i] && (i < |s| ==> s[i] == ch)
    ensures Before(s, ch) == s[..i]
  {
    if i > 0 {
      assert s[1..][..i - 1] == s[1..i] && s[..i] == [s[0]] + s[1..i];
      BeforeAt(s[1..], ch, i - 1);
    }
  }

  /** Where the C string at the start of `s` ends. */
  lemma {:induction false} CStrEnd(s: string)
    requires Terminated(s)
    ensures |CStr(s)| < |s| && s[|CStr(s)|] == NUL && CStr(s) == s[..|CStr(s)|] && NUL !in CStr(s)
  {
    if s[0] != NUL {
      CStrEnd(s[1..]);
      assert s == [s[0]] + s[1..];
    }
  }

  lemma {:induction false} CutsAt(was: string, now: string, ch: char, i: nat)
    requires Terminated(was) && i <= |CStr(was)| < |was| && ch !in was[..i] && (was[i] == ch || was[i] == NUL)
    requires |now| == |was| && now[..i] == was[..i] && now[i] == NUL
    ensures Terminated(now) && CStr(now) == Before(CStr(was), ch)
  {
    CStrEnd(was);
    var text := CStr(was);
    assert forall k :: 0 <= k < i ==> was[..i][k] == text[k];
    CStrAt(now, i);
    BeforeAt(text, ch, i);
  }

  /** `*strchrnul (line, ch) = 0` */
  method CutAt(buf: array<char>, ch: char)
    requires Terminated(buf[..]) && ch != NUL
    modifies buf
    ensures Terminated(buf[..]) && CStr(buf[..]) == Before(CStr(old(buf[..])), ch)
  {
    ghost var was := buf[..];
    CStrEnd(was);
    var i := 0;
    while buf[i] != NUL && buf[i] != ch
      invariant i <= |CStr(was)| && ch !in was[..i]
      decreases |was| - i
    {
      assert was[..i + 1] == was[..i] + [was[i]];
      i := i + 1;
    }
    buf[i] := NUL;
    CutsAt(was, buf[..], ch, i);
  }

  lemma {:induction false} CStrStep(s: string)
    requires Terminated(s) && s[0] != NUL
    ensures Terminated(s[1..]) && CStr(s) == [s[0]] + CStr(s[1..]) && CStr(s)[1..] == CStr(s[1..])
  {
    assert s == [s[0]] + s[1..];
  }

  /** Moves past white space; the terminator is none. */
  method EatWhitespace(buf: array<char>, start: nat) returns (i: nat)
    requires start <= buf.Length && Terminated(buf[start..])
    ensures start <= i < buf.Length && Terminated(buf[i..])
    ensures CStr(buf[i..]) == SkipSpace(CStr(buf[start..]))
  {
    i := start;
    while IsSpace(buf[i])
      invariant start <= i < buf.Length && Terminated(buf[i..])
      invariant SkipSpace(CStr(buf[i..])) == SkipSpace(CStr(buf[start..]))
      decreases buf.Length - i
    {
      CStrStep(buf[i..]);
      assert buf[i..][1..] == buf[i + 1..];
      i := i + 1;
    }
  }

  /** The end of the token at `start`. */
  method TokenEnd(buf: array<char>, start: nat) returns (k: nat)
    requires start < buf.Length && Terminated(buf[start..])
    ensures k == start + TokenLength(CStr(buf[start..])) < buf.Length && Terminated(buf[k..])
    ensures buf[k] == NUL || buf[k] == ' ' || buf[k] == '\t'
  {
    k := start;
    while buf[k] != NUL && buf[k] != ' ' && buf[k] != '\t'
      invariant start <= k < buf.Length && Terminated(buf[k..])
      invariant k - start + TokenLength(CStr(buf[k..])) == TokenLength(CStr(buf[start..]))
      decreases buf.Length - k
    {
      CStrStep(buf[k..]);
      assert buf[k..][1..] == buf[k + 1..];
      k := k + 1;
    }
  }

  /** What stands in the buffer before and after the token that ends at `k` is cut off. */
  lemma {:induction false} TokenSplits(s: string, n: nat)
    requires Terminated(s) && n == TokenLength(CStr(s)) && n < |s|
    ensures n <= |CStr(s)| && (s[n] == NUL <==> n == |CStr(s)|)
    ensures CStr(s[..n] + [NUL] + s[n + 1..]) == CStr(s)[..n]
    ensures n < |CStr(s)| ==> Terminated(s[n + 1..]) && CStr(s[n + 1..]) == CStr(s)[n + 1..]
  {
    CStrEnd(s);
    var text, m := CStr(s), |CStr(s)|;
    assert forall i :: 0 <= i < m ==> text[i] == s[i];
    var cut := s[..n] + [NUL] + s[n + 1..];
    assert cut[..n] == s[..n] == text[..n];
    CStrAt(cut, n);
    if n < m {
      var rest := s[n + 1..];
      assert rest[m - n - 1] == NUL && rest[..m - n - 1] == text[n + 1..];
      CStrAt(rest, m - n - 1);
    }
  }

  /** strtok() ends the token with a terminator of its own. */
  method EndToken(buf: array<char>, start: nat, k: nat)
    requires start <= k < buf.Length
    modifies buf
    ensures buf[start..] == old(buf[start..k]) + [NUL] + old(buf[k + 1..])
    ensures buf[k + 1..] == old(buf[k + 1..])
  {
    buf[k] := NUL;
  }

  /** The rest of the line, if there is any, stripped of leading white space. */
  method Value(buf: array<char>, at: nat) returns (value: Option<string>)
    requires at <= buf.Length && Terminated(buf[at..])
    ensures var rest := CStr(buf[at..]); value == if rest == [] then None else Some(SkipSpace(rest))
  {
    if buf[at] == NUL { return None; }
    var v := EatWhitespace(buf, at);
    value := Some(CStr(buf[v..]));
  }

  lemma {:induction false} ParseTextIs(s: string, n: nat)
    requires n == TokenLength(s)
    ensures n == |s| ==> ParseText(s) == Entry(s, None)
    ensures n < |s| ==> ParseText(s) == Entry(s[..n], if s[n + 1..] == [] then None else Some(SkipSpace(s[n + 1..])))
  {
  }

  /** The key before the terminator that was put in at `n` and the value after it are those of the line. */
  lemma {:induction false} TokensOf(line: string, n: nat, cut: string, rest: string, e: Entry)
    requires Terminated(line) && n == TokenLength(CStr(line)) && n < |line| && line[n] != NUL
    requires cut == line[..n] + [NUL] + line[n + 1..] && rest == line[n + 1..]
    requires e == Entry(CStr(cut), if CStr(rest) == [] then None else Some(SkipSpace(CStr(rest))))
    ensures e == ParseText(CStr(line))
  {
    TokenSplits(line, n);
    ParseTextIs(CStr(line), n);
  }

  lemma {:induction false} OneToken(line: string, n: nat)
    requires Terminated(line) && n == TokenLength(CStr(line)) && n < |line| && line[n] == NUL
    ensures ParseText(CStr(line)) == Entry(CStr(line), None)
  {
    TokenSplits(line, n);
    ParseTextIs(CStr(line), n);
  }

  lemma {:induction false} MoreAfterToken(line: string, n: nat)
    requires Terminated(line) && n == TokenLength(CStr(line)) && n < |line| && line[n] != NUL
    ensures Terminated(line[n + 1..])
  {
    TokenSplits(line, n);
  }

  /** strtok() twice on the line at `start`. */
  method Tokenize(buf: array<char>, start: nat) returns (e: Entry)
    requires start < buf.Length && Terminated(buf[start..])
    modifies buf
    ensures e == ParseText(CStr(old(buf[start..])))
  {
    ghost var line := buf[start..];
    var k := TokenEnd(buf, start);
    ghost var n := k - start;
    assert line[n] == buf[k];
    if buf[k] == NUL {
      OneToken(line, n);
      return Entry(CStr(buf[start..]), None);
    }
    MoreAfterToken(line, n);
    assert line[..n] == buf[start..k] && line[n + 1..] == buf[k + 1..];
    EndToken(buf, start, k);
    var value := Value(buf, k + 1);
    e := Entry(CStr(buf[start..]), value);
    TokensOf(line, n, buf[start..], buf[k + 1..], e);
  }

  /** One turn of the loop on the line in the buffer: nothing, or a key and perhaps a value. */
  method ConfLine(buf: array<char>) returns (found: Option<Entry>)
    requires Terminated(buf[..])
    modifies buf
    ensures ParseLine(old(buf[..])) == if found.Some? then [found.value] else []
  {
    TextIsCutTwice(buf[..]);
    CutAt(buf, '\n');
    CutAt(buf, '\r');
    assert buf[0..] == buf[..];
    var start := EatWhitespace(buf, 0);
    CStrEnd(buf[start..]);
    if buf[start] == NUL || buf[start] == '#' { return None; }
    var e := Tokenize(buf, start);
    found := Some(e);
  }

  lemma {:induction false} TextStops(line: string, rest: string)
    ensures Text(line + [NUL] + rest) == Text(line)
  {
    if line != [] {
      assert (line + [NUL] + rest)[1..] == line[1..] + [NUL] + rest;
      TextStops(line[1..], rest);
    }
  }

  lemma {:induction false} ParseStep(done: seq<Entry>, file: string)
    requires file != []
    ensures var n := LineLength(file, CONF_MAX_LINE - 1);
            done + ParseLine(file[..n]) + Parse(file[n..]) == done + Parse(file)
  {
    var n := LineLength(file, CONF_MAX_LINE - 1);
    var line, rest := ParseLine(file[..n]), Parse(file[n..]);
    assert Parse(file) == line + rest;
    assert done + line + rest == done + (line + rest);
  }

  class EntryNode {
    const entry: Entry
    var next: EntryNode?

    constructor (entry: Entry)
      ensures this.entry == entry && next == null
    {
      this.entry := entry;
      next := null;
    }
  }

  function EntryAt(nodes: seq<EntryNode>, i: nat): EntryNode? {
    if i < |nodes| then nodes[i] else null
  }

  /** The nodes of a list in order, none of them twice. */
  ghost predicate Linked(nodes: seq<EntryNode>)
    reads nodes
  {
    && (forall i {:trigger nodes[i].next} :: 0 <= i < |nodes| ==> nodes[i].next == EntryAt(nodes, i + 1))
    && (forall i, j :: 0 <= i < j < |nodes| ==> nodes[i] != nodes[j])
  }

  ghost function Listed(nodes: seq<EntryNode>): seq<Entry> {
    seq(|nodes|, i requires 0 <= i < |nodes| => nodes[i].entry)
  }

  lemma ListedSnoc(nodes: seq<EntryNode>, last: EntryNode)
    ensures Listed(nodes + [last]) == Listed(nodes) + [last.entry]
  {
  }

  /** fgets(): the next line of the file and the terminator after it. */
  method Gets(buf: array<char>, file: string) returns (n: nat)
    requires file != [] && buf.Length == CONF_MAX_LINE
    modifies buf
    ensures n == LineLength(file, CONF_MAX_LINE - 1)
    ensures Terminated(buf[..]) && ParseLine(buf[..]) == ParseLine(file[..n])
  {
    n := LineLength(file, CONF_MAX_LINE - 1);
    forall i | 0 <= i < n { buf[i] := file[i]; }
    buf[n] := NUL;
    assert buf[..] == file[..n] + [NUL] + buf[n + 1..];
    TextStops(file[..n], buf[n + 1..]);
  }

  /** Links a new node behind the last one. */
  method Append(head: EntryNode?, tail: EntryNode?, ghost nodes: seq<EntryNode>, entry: Entry)
    returns (first: EntryNode, last: EntryNode)
    requires Linked(nodes) && head == EntryAt(nodes, 0)
    requires nodes != [] ==> tail == nodes[|nodes| - 1]
    modifies nodes
    ensures fresh(last) && last.entry == entry
    ensures Linked(nodes + [last]) && first == EntryAt(nodes + [last], 0)
  {
    last := new EntryNode(entry);
    if head == null { first := last; } else {
      tail.next := last;
      first := head;
    }
    ghost var longer := nodes + [last];
    forall i | 0 <= i < |longer| ensures longer[i].next == EntryAt(longer, i + 1) {
      if i < |nodes| { assert longer[i] == nodes[i]; }
    }
  }

  /** `head` and `tail` are the ends of the list. */
  ghost predicate Ends(head: EntryNode?, tail: EntryNode?, nodes: seq<EntryNode>) {
    head == EntryAt(nodes, 0) && (nodes != [] ==> tail == nodes[|nodes| - 1])
  }

  /** One turn of the loop: reads a line and links its entry, if it has one. */
  method ParseNext(buf: array<char>, head: EntryNode?, tail: EntryNode?, ghost nodes: seq<EntryNode>, file: string)
    returns (first: EntryNode?, last: EntryNode?, ghost longer: seq<EntryNode>, n: nat)
    requires file != [] && buf.Length == CONF_MAX_LINE && Linked(nodes) && Ends(head, tail, nodes)
    modifies buf, nodes
    ensures n == LineLength(file, CONF_MAX_LINE - 1)
    ensures Linked(longer) && Ends(first, last, longer)
    ensures longer == nodes || (last != null && fresh(last) && longer == nodes + [last])
    ensures Listed(longer) == Listed(nodes) + ParseLine(file[..n])
  {
    first, last, longer := head, tail, nodes;
    n := Gets(buf, file);
    var found := ConfLine(buf);
    if found.Some? {
      first, last := Append(head, tail, nodes, found.value);
      longer := nodes + [last];
      ListedSnoc(nodes, last);
    } else {
      assert Listed(nodes) + [] == Listed(nodes);
    }
  }

  /** The list of entries, linked through a pointer to its last node. */
  method ConfParse(file: string) returns (head: EntryNode?, ghost nodes: seq<EntryNode>)
    ensures Linked(nodes) && head == EntryAt(nodes, 0) && fresh(nodes)
    ensures Listed(nodes) == Parse(file)
  {
    var buf := new char[CONF_MAX_LINE];
    var tail: EntryNode?;
    head, tail, nodes := null, null, [];
    var rest := file;
    while rest != []
      invariant fresh(buf) && fresh(nodes)
      invariant Linked(nodes) && Ends(head, tail, nodes)
      invariant Listed(nodes) + Parse(rest) == Parse(file)
      decreases |rest|
    {
      ParseStep(Listed(nodes), rest);
      var n;
      head, tail, nodes, n := ParseNext(buf, head, tail, nodes, rest);
      rest := rest[n..];
    }
    assert Listed(nodes) + [] == Listed(nodes);
  }

  // ---- load_conf, as far as sources go ----

  /** A stanza after its "source" line: what follows its "end", and the source; None is a fatal error. */
  function Stanza(es: seq<Entry>, host: Option<string>, port: Option<string>, proxy: Option<string>)
    : (r: Option<(seq<Entry>, (string, string, Option<string>))>)
    ensures r.Some? ==> |r.value.0| < |es|
    decreases |es|
  {
    if es == [] then None
    else if es[0].key == "end" then
      if host.Some? && port.Some? then Some((es[1..], (host.value, port.value, proxy))) else None
    else if es[0].key == "host" then Stanza(es[1..], es[0].value, port, proxy)
    else if es[0].key == "port" then Stanza(es[1..], host, es[0].value, proxy)
    else if es[0].key == "proxy" then Stanza(es[1..], host, port, es[0].value)
    else None
  }

  /** A source goes to the end of the list and is numbered after the last one. */
  function AddSource(sources: seq<Source>, s: (string, string, Option<string>)): seq<Source> {
    sources + [Source(s.0, s.1, s.2, if sources == [] then 0 else sources[|sources| - 1].id + 1)]
  }

  function Load(es: seq<Entry>, sources: seq<Source>): Option<seq<Source>>
    decreases |es|
  {
    if es == [] then Some(sources)
    else if es[0].key != "source" then Load(es[1..], sources)
    else
      var r := Stanza(es[1..], None, None, None);
      if r.None? then None else Load(r.value.0, AddSource(sources, r.value.1))
  }

  /** A file without entries is a fatal error too. */
  function LoadConf(file: string): Option<seq<Source>> {
    if Parse(file) == [] then None else Load(Parse(file), [])
  }

  class SourceNode {
    const host: string
    const port: string
    const proxy: Option<string>
    var id: nat
    var next: SourceNode?

    ghost function View(): Source
      reads this
    {
      Source(host, port, proxy, id)
    }

    constructor (host: string, port: string, proxy: Option<string>)
      ensures this.host == host && this.port == port && this.proxy == proxy && next == null
    {
      this.host, this.port, this.proxy := host, port, proxy;
      id, next := 0, null;
    }
  }

  function SourceAt(nodes: seq<SourceNode>, i: nat): SourceNode? {
    if i < |nodes| then nodes[i] else null
  }

  /** The sources of `struct opts`, a list that is walked to its end for each new one. */
  class SourceList {
    var first: SourceNode?
    ghost var nodes: seq<SourceNode>
    ghost var sources: seq<Source>

    ghost predicate Linked()
      reads this, nodes
    {
      && first == SourceAt(nodes, 0)
      && (forall i {:trigger nodes[i].next} :: 0 <= i < |nodes| ==> nodes[i].next == SourceAt(nodes, i + 1))
      && (forall i, j :: 0 <= i < j < |nodes| ==> nodes[i] != nodes[j])
    }

    ghost predicate Valid()
      reads this, nodes
    {
      && Linked() && |sources| == |nodes|
      && (forall i :: 0 <= i < |nodes| ==> sources[i] == nodes[i].View())
    }

    constructor ()
      ensures Valid() && nodes == [] && sources == []
    {
      first, nodes, sources := null, [], [];
    }

    /** Nodes beyond those of `was` are new. */
    twostate predicate Grown(was: seq<SourceNode>)
      reads this
    {
      was <= nodes && forall i :: |was| <= i < |nodes| ==> fresh(nodes[i])
    }

    /** The last node of a list that has one. */
    method Last() returns (s: SourceNode)
      requires Linked() && nodes != []
      ensures s == nodes[|nodes| - 1]
    {
      s := first;
      ghost var i := 0;
      while s.next != null
        invariant 0 <= i < |nodes| && s == nodes[i]
        decreases |nodes| - i
      {
        s, i := s.next, i + 1;
      }
    }

    /** Links `source` behind the last node and numbers it. */
    method Link(source: SourceNode)
      requires Linked() && source !in nodes && source.next == null
      modifies this`first, this`nodes, nodes, source
      ensures Linked() && nodes == old(nodes) + [source]
      ensures forall n :: n in old(nodes) ==> n.id == old(n.id)
      ensures source.id == if old(nodes) == [] then 0 else old(nodes)[|old(nodes)| - 1].id + 1
    {
      ghost var longer := nodes + [source];
      if first == null {
        first := source;
        source.id := 0;
      } else {
        var s := Last();
        source.id := s.id + 1;
        s.next := source;
      }
      forall i | 0 <= i < |longer| ensures longer[i].next == SourceAt(longer, i + 1) {
        if i < |nodes| { assert longer[i] == nodes[i]; }
      }
      nodes := longer;
    }

    method Add(host: string, port: string, proxy: Option<string>)
      requires Valid()
      modifies this, nodes
      ensures Valid() && Grown(old(nodes))
      ensures sources == AddSource(old(sources), (host, port, proxy))
    {
      var source := new SourceNode(host, port, proxy);
      Link(source);
      sources := AddSource(sources, (host, port, proxy));
      forall i | 0 <= i < |nodes| ensures sources[i] == nodes[i].View() {
        if i < |old(nodes)| { assert nodes[i] == old(nodes)[i]; }
      }
    }
  }

  lemma {:induction false} StanzaAt(es: seq<Entry>, at: nat, host: Option<string>, port: Option<string>,
                                    proxy: Option<string>)
    requires at < |es|
    ensures Stanza(es[at..], host, port, proxy)
         == if es[at].key == "end" then
              (if host.Some? && port.Some? then Some((es[at + 1..], (host.value, port.value, proxy))) else None)
            else if es[at].key == "host" then Stanza(es[at + 1..], es[at].value, port, proxy)
            else if es[at].key == "port" then Stanza(es[at + 1..], host, es[at].value, proxy)
            else if es[at].key == "proxy" then Stanza(es[at + 1..], host, port, es[at].value)
            else None
  {
    assert es[at..][1..] == es[at + 1..] && es[at..][0] == es[at];
  }

  /** The stanza after its "source" node: the node of its "end" and what it sets, or null for a fatal error. */
  method ReadStanza(conf: EntryNode, ghost nodes: seq<EntryNode>, ghost start: nat)
    returns (end: EntryNode?, ghost at: nat, source: (string, string, Option<string>))
    requires Linked(nodes) && start < |nodes| && conf == nodes[start]
    ensures end == null ==> Stanza(Listed(nodes)[start + 1..], None, None, None).None?
    ensures end != null ==> start < at < |nodes| && end == nodes[at]
    ensures end != null ==>
              Stanza(Listed(nodes)[start + 1..], None, None, None) == Some((Listed(nodes)[at + 1..], source))
  {
    ghost var es := Listed(nodes);
    var host: Option<string>, port: Option<string>, proxy: Option<string> := None, None, None;
    var e := conf.next;
    at, source := start + 1, ([], [], None);
    while e != null && e.entry.key != "end"
      invariant start < at <= |nodes| && e == EntryAt(nodes, at)
      invariant Stanza(es[at..], host, port, proxy) == Stanza(es[start + 1..], None, None, None)
      decreases |nodes| - at
    {
      assert es[at] == e.entry;
      StanzaAt(es, at, host, port, proxy);
      if e.entry.key == "host" { host := e.entry.value; }
      else if e.entry.key == "port" { port := e.entry.value; }
      else if e.entry.key == "proxy" { proxy := e.entry.value; }
      else { return null, at, source; }
      e, at := e.next, at + 1;
    }
    if e == null { return null, at, source; }
    assert es[at] == e.entry;
    StanzaAt(es, at, host, port, proxy);
    if host.None? || port.None? { return null, at, source; }
    return e, at, (host.value, port.value, proxy);
  }

  /** The stanza from `start` to `at` adds one source. */
  predicate Takes(es: seq<Entry>, start: nat, at: nat, before: seq<Source>, after: seq<Source>)
    requires start < at < |es|
  {
    var r := Stanza(es[start + 1..], None, None, None);
    r.Some? && r.value.0 == es[at + 1..] && after == AddSource(before, r.value.1)
  }

  method ParseSource(list: SourceList, conf: EntryNode, ghost nodes: seq<EntryNode>, ghost start: nat)
    returns (end: EntryNode?, ghost at: nat)
    requires Linked(nodes) && start < |nodes| && conf == nodes[start] && list.Valid()
    modifies list, list.nodes
    ensures list.Valid() && list.Grown(old(list.nodes)) && Linked(nodes)
    ensures end == null ==> Stanza(Listed(nodes)[start + 1..], None, None, None).None?
    ensures end != null ==> start < at < |nodes| && end == nodes[at]
    ensures end != null ==> Takes(Listed(nodes), start, at, old(list.sources), list.sources)
  {
    var source;
    end, at, source := ReadStanza(conf, nodes, start);
    if end != null { list.Add(source.0, source.1, source.2); }
  }

  /** One turn of the loop of load_conf, from entry `i` to entry `at`. */
  predicate Turn(es: seq<Entry>, i: nat, at: nat, before: seq<Source>, after: seq<Source>)
    requires i <= at < |es|
  {
    if es[i].key != "source" then at == i && after == before
    else i < at && Takes(es, i, at, before, after)
  }

  lemma {:induction false} TurnLoads(es: seq<Entry>, i: nat, at: nat, before: seq<Source>, after: seq<Source>)
    requires i <= at < |es| && Turn(es, i, at, before, after)
    ensures Load(es[at + 1..], after) == Load(es[i..], before)
  {
    assert es[i..][1..] == es[i + 1..] && es[i..][0] == es[i];
  }

  lemma {:induction false} LoadFails(es: seq<Entry>, i: nat, before: seq<Source>)
    requires i < |es| && es[i].key == "source" && Stanza(es[i + 1..], None, None, None).None?
    ensures Load(es[i..], before).None?
  {
    assert es[i..][1..] == es[i + 1..] && es[i..][0] == es[i];
  }

  method LoadEntry(e: EntryNode, ghost nodes: seq<EntryNode>, ghost i: nat, list: SourceList)
    returns (end: EntryNode?, ghost at: nat)
    requires Linked(nodes) && i < |nodes| && e == nodes[i] && list.Valid()
    modifies list, list.nodes
    ensures list.Valid() && list.Grown(old(list.nodes)) && Linked(nodes)
    ensures end == null ==>
              e.entry.key == "source" && Stanza(Listed(nodes)[i + 1..], None, None, None).None?
    ensures end != null ==> i <= at < |nodes| && end == nodes[at]
    ensures end != null ==> Turn(Listed(nodes), i, at, old(list.sources), list.sources)
  {
    if e.entry.key == "source" { end, at := ParseSource(list, e, nodes, i); } else { end, at := e, i; }
  }

  /** The source part of load_conf: whether it gets to the end of the list, and the sources then. */
  method LoadSources(head: EntryNode?, ghost nodes: seq<EntryNode>, list: SourceList) returns (ok: bool)
    requires Linked(nodes) && head == EntryAt(nodes, 0) && list.Valid()
    modifies list, list.nodes
    ensures list.Valid()
    ensures Load(Listed(nodes), old(list.sources)) == if ok then Some(list.sources) else None
  {
    ghost var es := Listed(nodes);
    var e := head;
    ghost var i := 0;
    while e != null
      invariant i <= |nodes| && e == EntryAt(nodes, i)
      invariant list.Valid() && Linked(nodes) && list.Grown(old(list.nodes))
      invariant Load(es[i..], list.sources) == Load(es, old(list.sources))
      decreases |nodes| - i
    {
      ghost var before := list.sources;
      var end, at := LoadEntry(e, nodes, i, list);
      if end == null {
        LoadFails(es, i, before);
        return false;
      }
      TurnLoads(es, i, at, before, list.sources);
      e, i := end.next, at + 1;
    }
    ok := true;
  }

  /** A whole file: the sources it leads to, or a fatal error. */
  method LoadFile(file: string, list: SourceList) returns (ok: bool)
    requires list.Valid() && list.nodes == []
    modifies list
    ensures list.Valid()
    ensures LoadConf(file) == if ok then Some(list.sources) else None
  {
    var conf, nodes := ConfParse(file);
    if conf == null {
      assert Listed(nodes) == [];
      return false;
    }
    assert |Listed(nodes)| == |nodes| > 0;
    ok := LoadSources(conf, nodes, list);
  }

  // ---- printing ----

  /** White space that does not end a line. */
  predicate Blank(s: string) {
    forall i :: 0 <= i < |s| ==> IsSpace(s[i]) && !EndsText(s[i])
  }

  datatype Noise = Empty(blank: string) | Comment(blank: string, text: string)
  {
    predicate Valid() {
      && Blank(blank) && (Comment? ==> '\n' !in text)
      && |Print()| < CONF_MAX_LINE
    }

    function Print(): string {
      match this
      case Empty(b) => b + "\n"
      case Comment(b, text) => b + ("#" + (text + "\n"))
    }
  }

  /** How one entry is laid out: lines to be ignored, indentation, gap before the value, line end. */
  datatype Layout = Layout(noise: seq<Noise>, indent: string, gap: string, eol: string)
  {
    predicate Valid() {
      && (forall i :: 0 <= i < |noise| ==> noise[i].Valid())
      && Blank(indent)
      && Blank(gap) && gap != [] && (gap[0] == ' ' || gap[0] == '\t')
      && (eol == "\n" || eol == "\r\n")
    }
  }

  predicate PlainWord(s: string) {
    forall i :: 0 <= i < |s| ==> !IsSpace(s[i]) && s[i] != NUL
  }

  predicate ValidEntry(e: Entry) {
    && e.key != [] && PlainWord(e.key) && e.key[0] != '#'
    && (e.value.Some? ==>
          && e.value.value != [] && !IsSpace(e.value.value[0])
          && forall i :: 0 <= i < |e.value.value| ==> !EndsText(e.value.value[i]))
  }

  function EntryText(e: Entry, gap: string): string {
    e.key + if e.value.Some? then gap + e.value.value else ""
  }

  function PrintEntry(e: Entry, l: Layout): string {
    l.indent + (EntryText(e, l.gap) + l.eol)
  }

  function PrintNoise(noise: seq<Noise>, rest: string): string {
    if noise == [] then rest else noise[0].Print() + PrintNoise(noise[1..], rest)
  }

  predicate Fits(es: seq<Entry>, ls: seq<Layout>) {
    && |ls| == |es|
    && forall i :: 0 <= i < |es| ==> ValidEntry(es[i]) && ls[i].Valid() && |PrintEntry(es[i], ls[i])| < CONF_MAX_LINE
  }

  /** The file: each entry after the noise of its layout, and noise at the end. */
  function Print(es: seq<Entry>, ls: seq<Layout>, trailing: seq<Noise>): string
    requires |ls| == |es|
  {
    if es == [] then PrintNoise(trailing, "")
    else PrintNoise(ls[0].noise, PrintEntry(es[0], ls[0]) + Print(es[1..], ls[1..], trailing))
  }

  // ---- round trip ----

  lemma {:induction false} LineLengthOf(body: string, rest: string, room: nat)
    requires '\n' !in body && |body| < room
    ensures LineLength(body + ("\n" + rest), room) == |body| + 1
  {
    var s := body + ("\n" + rest);
    if body != [] {
      assert s[1..] == body[1..] + ("\n" + rest);
      LineLengthOf(body[1..], rest, room - 1);
    }
  }

  /** A printed line is read as one line. */
  lemma {:induction false} ParseFirst(body: string, rest: string)
    requires '\n' !in body && |body| + 1 < CONF_MAX_LINE
    ensures Parse(body + "\n" + rest) == ParseLine(body + "\n") + Parse(rest)
  {
    var file := body + "\n" + rest;
    assert file == body + ("\n" + rest);
    LineLengthOf(body, rest, CONF_MAX_LINE - 1);
    assert file[..|body| + 1] == body + "\n" && file[|body| + 1..] == rest;
  }

  lemma {:induction false} TextOf(s: string, end: string)
    requires forall i :: 0 <= i < |s| ==> !EndsText(s[i])
    requires end != [] && EndsText(end[0])
    ensures Text(s + end) == s
  {
    if s != [] {
      assert (s + end)[1..] == s[1..] + end;
      TextOf(s[1..], end);
    }
  }

  /** Text is a prefix of the line that a first '#' survives. */
  lemma {:induction false} TextOfComment(blank: string, rest: string)
    requires Blank(blank)
    ensures SkipSpace(Text(blank + ("#" + rest))) != [] && SkipSpace(Text(blank + ("#" + rest)))[0] == '#'
  {
    var s := blank + ("#" + rest);
    if blank != [] {
      assert s[1..] == blank[1..] + ("#" + rest);
      TextOfComment(blank[1..], rest);
      assert Text(s)[1..] == Text(s[1..]);
    }
  }

  lemma {:induction false} SkipBlank(blank: string, rest: string)
    requires Blank(blank) && (rest == [] || !IsSpace(rest[0]))
    ensures SkipSpace(blank + rest) == rest
  {
    if blank == [] {
      assert blank + rest == rest;
    } else {
      assert (blank + rest)[1..] == blank[1..] + rest;
      SkipBlank(blank[1..], rest);
    }
  }

  lemma {:induction false} NoiseIsIgnored(noise: Noise, rest: string)
    requires noise.Valid()
    ensures Parse(noise.Print() + rest) == Parse(rest)
  {
    match noise
    case Empty(b) =>
      ParseFirst(b, rest);
      TextOf(b, "\n");
      assert b + [] == b;
      SkipBlank(b, []);
    case Comment(b, text) =>
      var body := b + ("#" + text);
      assert noise.Print() == body + "\n" && body + "\n" == b + ("#" + (text + "\n"));
      ParseFirst(body, rest);
      TextOfComment(b, text + "\n");
  }

  lemma {:induction false} AllNoiseIsIgnored(noise: seq<Noise>, rest: string)
    requires forall i :: 0 <= i < |noise| ==> noise[i].Valid()
    ensures Parse(PrintNoise(noise, rest)) == Parse(rest)
  {
    if noise != [] {
      NoiseIsIgnored(noise[0], PrintNoise(noise[1..], rest));
      AllNoiseIsIgnored(noise[1..], rest);
    }
  }

  lemma {:induction false} TokenLengthOf(key: string, rest: string)
    requires PlainWord(key) && (rest == [] || rest[0] == ' ' || rest[0] == '\t')
    ensures TokenLength(key + rest) == |key|
  {
    if key == [] {
      assert key + rest == rest;
    } else {
      assert (key + rest)[1..] == key[1..] + rest;
      TokenLengthOf(key[1..], rest);
    }
  }

  /** Key and value come apart where they were joined. */
  lemma {:induction false} ParsesText(e: Entry, gap: string)
    requires ValidEntry(e) && Blank(gap) && gap != [] && (gap[0] == ' ' || gap[0] == '\t')
    ensures ParseText(EntryText(e, gap)) == e
  {
    var s, n := EntryText(e, gap), |e.key|;
    var rest := if e.value.Some? then gap + e.value.value else "";
    TokenLengthOf(e.key, rest);
    assert s[..n] == e.key;
    if e.value.Some? {
      assert s[n + 1..] == gap[1..] + e.value.value;
      SkipBlank(gap[1..], e.value.value);
    }
  }

  lemma {:induction false} EntryIsRead(e: Entry, l: Layout, rest: string)
    requires ValidEntry(e) && l.Valid() && |PrintEntry(e, l)| < CONF_MAX_LINE
    ensures Parse(PrintEntry(e, l) + rest) == [e] + Parse(rest)
  {
    var text := EntryText(e, l.gap);
    var body := l.indent + (text + if l.eol == "\n" then "" else "\r");
    EntryTextIsPlain(e, l.gap);
    assert PrintEntry(e, l) == body + "\n";
    ParseFirst(body, rest);
    assert PrintEntry(e, l) == l.indent + text + l.eol;
    TextOf(l.indent + text, l.eol);
    assert text[0] == e.key[0];
    SkipBlank(l.indent, text);
    ParsesText(e, l.gap);
  }

  lemma EntryTextIsPlain(e: Entry, gap: string)
    requires ValidEntry(e) && Blank(gap)
    ensures forall i :: 0 <= i < |EntryText(e, gap)| ==> !EndsText(EntryText(e, gap)[i])
  {
  }

  /** Parsing undoes printing, whatever the layout. */
  lemma {:induction false} EntriesRoundTrip(es: seq<Entry>, ls: seq<Layout>, trailing: seq<Noise>)
    requires Fits(es, ls) && forall i :: 0 <= i < |trailing| ==> trailing[i].Valid()
    ensures Parse(Print(es, ls, trailing)) == es
    decreases |es|
  {
    if es == [] {
      AllNoiseIsIgnored(trailing, "");
    } else {
      var rest := Print(es[1..], ls[1..], trailing);
      AllNoiseIsIgnored(ls[0].noise, PrintEntry(es[0], ls[0]) + rest);
      EntryIsRead(es[0], ls[0], rest);
      EntriesRoundTrip(es[1..], ls[1..], trailing);
    }
  }

  // ---- sources ----

  /** A source stanza, or any other setting between stanzas. */
  datatype Item = SourceItem(host: string, port: string, proxy: Option<string>) | Setting(e: Entry)

  predicate ValidItem(item: Item) {
    item.Setting? ==> item.e.key != "source"
  }

  function ItemEntries(item: Item): seq<Entry> {
    match item
    case Setting(e) => [e]
    case SourceItem(host, port, proxy) =>
      [Entry("source", None), Entry("host", Some(host)), Entry("port", Some(port))]
      + (if proxy.Some? then [Entry("proxy", proxy)] else []) + [Entry("end", None)]
  }

  function Entries(items: seq<Item>): seq<Entry> {
    if items == [] then [] else ItemEntries(items[0]) + Entries(items[1..])
  }

  /** The stanzas in order, numbered from `id`. */
  function Numbered(items: seq<Item>, id: nat): seq<Source> {
    if items == [] then []
    else if items[0].Setting? then Numbered(items[1..], id)
    else [Source(items[0].host, items[0].port, items[0].proxy, id)] + Numbered(items[1..], id + 1)
  }

  predicate NextId(sources: seq<Source>, id: nat) {
    id == if sources == [] then 0 else sources[|sources| - 1].id + 1
  }

  lemma {:induction false} StanzaStep(e: Entry, rest: seq<Entry>, host: Option<string>, port: Option<string>,
                                      proxy: Option<string>)
    ensures e.key == "host" ==> Stanza([e] + rest, host, port, proxy) == Stanza(rest, e.value, port, proxy)
    ensures e.key == "port" ==> Stanza([e] + rest, host, port, proxy) == Stanza(rest, host, e.value, proxy)
    ensures e.key == "proxy" ==> Stanza([e] + rest, host, port, proxy) == Stanza(rest, host, port, e.value)
    ensures e.key == "end" && host.Some? && port.Some? ==>
              Stanza([e] + rest, host, port, proxy) == Some((rest, (host.value, port.value, proxy)))
  {
    assert ([e] + rest)[1..] == rest;
  }

  /** The entries of a stanza after its first, one by one. */
  lemma {:induction false} StanzaEntries(item: Item, rest: seq<Entry>)
    requires item.SourceItem?
    ensures var tail := [Entry("end", None)] + rest;
            (ItemEntries(item) + rest)[1..]
            == [Entry("host", Some(item.host))] + ([Entry("port", Some(item.port))]
               + (if item.proxy.Some? then [Entry("proxy", item.proxy)] + tail else tail))
  {
  }

  lemma {:induction false} StanzaIsRead(item: Item, rest: seq<Entry>)
    requires item.SourceItem?
    ensures Stanza((ItemEntries(item) + rest)[1..], None, None, None)
         == Some((rest, (item.host, item.port, item.proxy)))
  {
    var host, port := Some(item.host), Some(item.port);
    var tail := [Entry("end", None)] + rest;
    var last := if item.proxy.Some? then [Entry("proxy", item.proxy)] + tail else tail;
    StanzaEntries(item, rest);
    StanzaStep(Entry("host", host), [Entry("port", port)] + last, None, None, None);
    StanzaStep(Entry("port", port), last, host, None, None);
    if item.proxy.Some? { StanzaStep(Entry("proxy", item.proxy), tail, host, port, None); }
    StanzaStep(Entry("end", None), rest, host, port, item.proxy);
  }

  lemma {:induction false} LoadsSetting(e: Entry, rest: seq<Entry>, sources: seq<Source>)
    requires e.key != "source"
    ensures Load([e] + rest, sources) == Load(rest, sources)
  {
    assert ([e] + rest)[1..] == rest;
  }

  lemma {:induction false} LoadsSource(item: Item, rest: seq<Entry>, sources: seq<Source>, id: nat)
    requires item.SourceItem? && NextId(sources, id)
    ensures Load(ItemEntries(item) + rest, sources)
         == Load(rest, sources + [Source(item.host, item.port, item.proxy, id)])
  {
    StanzaIsRead(item, rest);
    assert (ItemEntries(item) + rest)[0] == Entry("source", None);
  }

  lemma {:induction false} LoadsItems(items: seq<Item>, sources: seq<Source>, id: nat)
    requires NextId(sources, id) && forall i :: 0 <= i < |items| ==> ValidItem(items[i])
    ensures Load(Entries(items), sources) == Some(sources + Numbered(items, id))
    decreases |items|
  {
    if items == [] {
      assert sources + [] == sources;
    } else if items[0].Setting? {
      LoadsSetting(items[0].e, Entries(items[1..]), sources);
      LoadsItems(items[1..], sources, id);
    } else {
      var s := Source(items[0].host, items[0].port, items[0].proxy, id);
      LoadsSource(items[0], Entries(items[1..]), sources, id);
      LoadsItems(items[1..], sources + [s], id + 1);
      Regroup(sources, s, Numbered(items[1..], id + 1));
    }
  }

  lemma Regroup(a: seq<Source>, s: Source, b: seq<Source>)
    ensures a + [s] + b == a + ([s] + b)
  {
  }

  /** A printed configuration gives back its sources, in order and numbered from 0. */
  lemma {:induction false} SourcesRoundTrip(items: seq<Item>, ls: seq<Layout>, trailing: seq<Noise>)
    requires items != [] && forall i :: 0 <= i < |items| ==> ValidItem(items[i])
    requires Fits(Entries(items), ls) && forall i :: 0 <= i < |trailing| ==> trailing[i].Valid()
    ensures LoadConf(Print(Entries(items), ls, trailing)) == Some(Numbered(items, 0))
  {
    EntriesRoundTrip(Entries(items), ls, trailing);
    LoadsItems(items, [], 0);
    assert [] + Numbered(items, 0) == Numbered(items, 0);
    assert ItemEntries(items[0]) != [];
  }

  /** Whatever the file says, the sources it leads to are numbered by position. */
  lemma {:induction false} IdsArePositions(es: seq<Entry>, sources: seq<Source>)
    requires forall i :: 0 <= i < |sources| ==> sources[i].id == i
    ensures var r := Load(es, sources);
            r.Some? ==> sources <= r.value && forall i :: 0 <= i < |r.value| ==> r.value[i].id == i
    decreases |es|
  {
    if es != [] {
      if es[0].key != "source" {
        IdsArePositions(es[1..], sources);
      } else {
        var r := Stanza(es[1..], None, None, None);
        if r.Some? { IdsArePositions(r.value.0, AddSource(sources, r.value.1)); }
      }
    }
  }
}
