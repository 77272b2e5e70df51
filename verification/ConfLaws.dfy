/** What the configuration parser makes of input that no printer writes. */
module ConfLaws {
  import opened Settings
  import opened Scanner
  import opened Conf

  /** What the last entry with that key sets, or `before` if there is none. */
  function Final(es: seq<Entry>, key: string, before: Option<string>): Option<string> {
    if es == [] then before
    else
      var rest, last := es[..|es| - 1], es[|es| - 1];
      if last.key == key then last.value else Final(rest, key, before)
  }

  lemma {:induction false} FinalCons(e: Entry, es: seq<Entry>, key: string, before: Option<string>)
    ensures Final([e] + es, key, before) == Final(es, key, if e.key == key then e.value else before)
  {
    if es == [] {
      assert [e] + es == [e] && [e][..0] == [];
    } else {
      var n := |es| - 1;
      assert ([e] + es)[..|[e] + es| - 1] == [e] + es[..n] && ([e] + es)[|es|] == es[n];
      FinalCons(e, es[..n], key, before);
    }
  }

  predicate StanzaKey(key: string) {
    key == "host" || key == "port" || key == "proxy"
  }

  /** Nothing but host, port and proxy up to the first end. */
  predicate Closed(es: seq<Entry>, k: nat) {
    k < |es| && es[k].key == "end" && forall i :: 0 <= i < k ==> StanzaKey(es[i].key)
  }

  lemma {:induction false} StanzaFrom(es: seq<Entry>, k: nat, host: Option<string>, port: Option<string>,
                                      proxy: Option<string>)
    requires Closed(es, k)
    ensures var h, p, x := Final(es[..k], "host", host), Final(es[..k], "port", port), Final(es[..k], "proxy", proxy);
            Stanza(es, host, port, proxy)
            == if h.Some? && p.Some? then Some((es[k + 1..], (h.value, p.value, x))) else None
    decreases k
  {
    if k > 0 {
      var e, rest := es[0], es[1..];
      assert es[..k] == [e] + rest[..k - 1] && rest[k..] == es[k + 1..];
      assert forall i :: 0 <= i < k - 1 ==> rest[i] == es[i + 1];
      FinalCons(e, rest[..k - 1], "host", host);
      FinalCons(e, rest[..k - 1], "port", port);
      FinalCons(e, rest[..k - 1], "proxy", proxy);
      StanzaFrom(rest, k - 1, if e.key == "host" then e.value else host,
                 if e.key == "port" then e.value else port, if e.key == "proxy" then e.value else proxy);
    }
  }

  lemma {:induction false} StanzaIsClosed(es: seq<Entry>, host: Option<string>, port: Option<string>,
                                          proxy: Option<string>) returns (k: nat)
    requires Stanza(es, host, port, proxy).Some?
    ensures Closed(es, k)
    decreases |es|
  {
    var e := es[0];
    if e.key == "end" { return 0; }
    k := StanzaIsClosed(es[1..], if e.key == "host" then e.value else host,
                        if e.key == "port" then e.value else port, if e.key == "proxy" then e.value else proxy);
    k := k + 1;
    assert forall i :: 1 <= i < k ==> es[i] == es[1..][i - 1];
  }

  /**
    A stanza is accepted exactly if nothing but host, port and proxy stands before its end and both
    host and port are set; for each key the last entry counts.
   */
  lemma {:induction false} StanzaAccepted(es: seq<Entry>)
    ensures Stanza(es, None, None, None).Some? <==>
              exists k: nat :: Closed(es, k) && Final(es[..k], "host", None).Some? && Final(es[..k], "port", None).Some?
  {
    if Stanza(es, None, None, None).Some? {
      var k := StanzaIsClosed(es, None, None, None);
      StanzaFrom(es, k, None, None, None);
    }
    forall k: nat | Closed(es, k) && Final(es[..k], "host", None).Some? && Final(es[..k], "port", None).Some?
      ensures Stanza(es, None, None, None).Some?
    {
      StanzaFrom(es, k, None, None, None);
    }
  }

  lemma {:induction false} StanzaYields(es: seq<Entry>, k: nat)
    requires Closed(es, k) && Stanza(es, None, None, None).Some?
    ensures var h, p := Final(es[..k], "host", None), Final(es[..k], "port", None);
            && h.Some? && p.Some?
            && Stanza(es, None, None, None).value
               == (es[k + 1..], (h.value, p.value, Final(es[..k], "proxy", None)))
  {
    StanzaFrom(es, k, None, None, None);
  }

  /** A line with a key and one blank has no value, one with two blanks has an empty one. */
  lemma {:induction false} BlankValues(key: string)
    requires key != [] && PlainWord(key) && key[0] != '#'
    ensures ParseLine(key + "\n") == [Entry(key, None)]
    ensures ParseLine(key + " " + "\n") == [Entry(key, None)]
    ensures ParseLine(key + "  " + "\n") == [Entry(key, Some(""))]
  {
    LineText(key, "");
    assert key + "" == key;
    LineText(key, " ");
    LineText(key, "  ");
    assert SkipSpace(" ") == "";
  }

  lemma {:induction false} LineText(key: string, blanks: string)
    requires key != [] && PlainWord(key) && key[0] != '#'
    requires forall i :: 0 <= i < |blanks| ==> blanks[i] == ' '
    ensures ParseLine(key + blanks + "\n")
         == [Entry(key, if |blanks| <= 1 then None else Some(SkipSpace(blanks[1..])))]
  {
    var s := key + blanks;
    TextOf(s, "\n");
    assert s[0] == key[0];
    assert SkipSpace(s) == s;
    TokenLengthOf(key, blanks);
    assert s[..|key|] == key;
    if blanks != [] { assert s[|key| + 1..] == blanks[1..]; }
  }

  /** A longer line is read in pieces of 16383 characters. */
  lemma {:induction false} LongLines(body: string)
    requires |body| >= 16383 && '\n' !in body[..16383]
    ensures Parse(body) == ParseLine(body[..16383]) + Parse(body[16383..])
  {
    LongLine(body, 16383);
  }

  lemma {:induction false} LongLine(s: string, room: nat)
    requires room <= |s| && '\n' !in s[..room]
    ensures LineLength(s, room) == room
  {
    if room > 0 {
      assert s[1..][..room - 1] == s[1..room] && s[..room] == [s[0]] + s[1..room];
      LongLine(s[1..], room - 1);
    }
  }

  /** A file of comments and blank lines only is refused. */
  lemma {:induction false} NothingButNoise(noise: seq<Noise>)
    requires forall i :: 0 <= i < |noise| ==> noise[i].Valid()
    ensures LoadConf(PrintNoise(noise, "")) == None
  {
    AllNoiseIsIgnored(noise, "");
  }
}
