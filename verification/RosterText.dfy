/** The counted list `n:nick:name:nick:name...` of a roster update, as the
    server writes it and as the client reads it. */
module RosterText {
  import opened CppString
  import opened KeyOrder
  import Decimal

  type Entry = (string, string)  // nickname, name

  function Item(e: Entry): string {
    ":" + e.0 + ":" + e.1
  }

  function Body(es: seq<Entry>): string {
    if es == [] then "" else Item(es[0]) + Body(es[1..])
  }

  function ListText(es: seq<Entry>): string {
    Decimal.Print(|es|) + Body(es)
  }

  /** The server's name -> nickname map in the order of its iterator. */
  function Entries(nicks: map<string, string>): (es: seq<Entry>)
    ensures |es| == |nicks|
    ensures forall i :: 0 <= i < |es| ==> es[i] == (nicks[Keys(nicks.Keys)[i]], Keys(nicks.Keys)[i])
  {
    var ks := Keys(nicks.Keys);
    seq(|ks|, i requires 0 <= i < |ks| => (nicks[ks[i]], ks[i]))
  }

  lemma {:induction false} BodyAppend(es: seq<Entry>, e: Entry)
    ensures Body(es + [e]) == Body(es) + Item(e)
  {
    if es == [] {
      assert [] + [e] == [e] && [e][1..] == [];
      assert Item(e) + "" == "" + Item(e);
    } else {
      assert (es + [e])[1..] == es[1..] + [e];
      BodyAppend(es[1..], e);
    }
  }

  /** One more turn of the loop that writes a list. */
  lemma WriteOne(count: string, es: seq<Entry>, i: nat)
    requires i < |es|
    ensures count + Body(es[..i]) + ":" + es[i].0 + ":" + es[i].1 == count + Body(es[..i + 1])
  {
    BodyAppend(es[..i], es[i]);
    assert es[..i + 1] == es[..i] + [es[i]];
    Regroup(count, Body(es[..i]), es[i]);
  }

  lemma Regroup(a: string, b: string, e: Entry)
    ensures a + b + ":" + e.0 + ":" + e.1 == a + (b + Item(e))
  {
  }

  lemma BodyEnds(es: seq<Entry>)
    ensures Body(es[..0]) == "" && Body(es[..|es|]) == Body(es)
  {
    assert es[..|es|] == es;
  }

  /** The loop of `updateClientListAdd` that writes the whole list. */
  method WriteList(nicks: map<string, string>) returns (entry: string)
    ensures entry == ListText(Entries(nicks))
  {
    hide Body, Decimal.Print;
    entry := Decimal.Print(|nicks|);
    var ks := Keys(nicks.Keys);
    ghost var es := Entries(nicks);
    BodyEnds(es);
    for i := 0 to |ks|
      invariant entry == Decimal.Print(|nicks|) + Body(es[..i])
    {
      assert ks[i] in ks && es[i] == (nicks[ks[i]], ks[i]);
      WriteOne(Decimal.Print(|nicks|), es, i);
      entry := entry + ":";
      entry := entry + nicks[ks[i]];
      entry := entry + ":";
      entry := entry + ks[i];
    }
  }

  // ----- reading

  /** `extractNewClient`: the first entry and the data behind it. */
  function Extract(data: string): (r: (Entry, string))
    requires |data| < NPOS
    ensures ':' !in r.0.0 && ':' !in r.0.1
    ensures |r.1| <= |data| || r.1 == VOID
  {
    var first := FindFirstOf(data, ':', 0);
    var nick := if first == NPOS then data else data[..first];
    var start := SizeSucc(first);
    var second := FindFirstOf(data, ':', start);
    if second == NPOS then ((nick, data[start..]), VOID)
    else ((nick, data[start..second]), data[second + 1..])
  }

  method ExtractNewClient(data: string) returns (nick: string, name: string, data': string)
    requires |data| < NPOS
    ensures ((nick, name), data') == Extract(data)
  {
    var firstSeparator := FindFirstOf(data, ':', 0);
    nick := Substr(data, 0, firstSeparator).value;
    var secondSeparator := FindFirstOf(data, ':', SizeSucc(firstSeparator));
    if secondSeparator != NPOS {
      name := Substr(data, SizeSucc(firstSeparator), SizeSub(SizeSub(secondSeparator, firstSeparator), 1)).value;
      data' := Substr(data, SizeSucc(secondSeparator), NPOS).value;
    } else {
      // last entry
      name := Substr(data, SizeSucc(firstSeparator), NPOS).value;
      data' := VOID;
    }
  }

  /** n successive extractions. */
  function ReadEntries(data: string, n: nat): (r: (seq<Entry>, string))
    requires |data| < NPOS
    ensures |r.0| == n
    decreases n
  {
    if n == 0 then ([], data)
    else
      var (e, rest) := Extract(data);
      var (es, left) := ReadEntries(rest, n - 1);
      ([e] + es, left)
  }

  predicate NoColon(e: Entry) {
    ':' !in e.0 && ':' !in e.1
  }

  predicate NoColons(es: seq<Entry>) {
    forall i :: 0 <= i < |es| ==> NoColon(es[i])
  }

  /** The count in front of the first separator, and what follows it. */
  function ListCount(data: string): nat
    requires |data| < NPOS
  {
    var first := FindFirstOf(data, ':', 0);
    Decimal.Unsigned(Decimal.Atoi(if first == NPOS then data else data[..first]))
  }

  function ListBody(data: string): (r: string)
    requires |data| < NPOS
    ensures |r| < NPOS
  {
    data[SizeSucc(FindFirstOf(data, ':', 0))..]
  }

  function ReadList(data: string): (r: (seq<Entry>, string))
    requires |data| < NPOS
  {
    ReadEntries(ListBody(data), ListCount(data))
  }

  lemma FindIs(s: string, c: char, from: nat, k: nat)
    requires |s| < NPOS && from <= k < |s| && s[k] == c && c !in s[from..k]
    ensures FindFirstOf(s, c, from) == k
  {
    assert forall i :: from <= i < k ==> s[i] == s[from..k][i - from];
  }

  lemma FindNone(s: string, c: char, from: nat)
    requires |s| < NPOS && from <= |s| && c !in s[from..]
    ensures FindFirstOf(s, c, from) == NPOS
  {
    assert forall i :: from <= i < |s| ==> s[i] == s[from..][i - from];
  }

  lemma ExtractEntry(nick: string, name: string, rest: string)
    requires NoColon((nick, name)) && (rest == "" || rest[0] == ':')
    requires |nick| + 1 + |name| + |rest| < NPOS
    ensures Extract(nick + ":" + name + rest) == ((nick, name), if rest == "" then VOID else rest[1..])
  {
    hide FindFirstOf;
    var data := nick + ":" + name + rest;
    var start := |nick| + 1;
    EntrySlices(nick, name, rest);
    FindIs(data, ':', 0, |nick|);
    if rest == "" {
      FindNone(data, ':', start);
    } else {
      FindIs(data, ':', start, start + |name|);
    }
  }

  /** Data without a separator is nickname and name at once; a nickname that ends
      the data has an empty name. */
  lemma ExtractEdges(text: string)
    requires ':' !in text && |text| + 1 < NPOS
    ensures Extract(text) == ((text, text), " ") && Extract(text + ":") == ((text, ""), " ")
    ensures Extract(":" + text) == (("", text), " ")
  {
    hide FindFirstOf;
    FindNone(text, ':', 0);
    ExtractEntry(text, "", "");
    assert text + ":" + "" + "" == text + ":";
    ExtractEntry("", text, "");
    assert "" + ":" + text + "" == ":" + text;
  }

  /** A list without a separator is its own count and body. */
  lemma NoSeparator(text: string)
    requires ':' !in text && |text| < NPOS
    ensures ListCount(text) == Decimal.Unsigned(Decimal.Atoi(text)) && ListBody(text) == text
  {
    FindNone(text, ':', 0);
  }

  lemma EntrySlices(nick: string, name: string, rest: string)
    ensures var data, start := nick + ":" + name + rest, |nick| + 1;
      && data[0..|nick|] == data[..|nick|] == nick && data[|nick|] == ':'
      && data[start..] == name + rest && data[start..start + |name|] == name
      && (rest == "" ==> data[start..] == name)
      && (rest != "" ==> data[start + |name|] == rest[0] && data[start + |name| + 1..] == rest[1..])
  {
  }

  /** A non-empty list behind its count. */
  function ListPayload(es: seq<Entry>): string
    requires es != []
  {
    es[0].0 + ":" + es[0].1 + Body(es[1..])
  }

  lemma ListPayloadIs(es: seq<Entry>)
    requires es != []
    ensures Body(es) != "" && Body(es)[0] == ':' && Body(es)[1..] == ListPayload(es)
  {
    DropColon(es[0], Body(es[1..]));
  }

  lemma DropColon(e: Entry, rest: string)
    ensures (Item(e) + rest)[1..] == e.0 + ":" + e.1 + rest
  {
  }

  lemma ExtractFirst(es: seq<Entry>)
    requires es != [] && NoColon(es[0]) && |ListPayload(es)| < NPOS
    ensures Extract(ListPayload(es)) == (es[0], if |es| == 1 then VOID else ListPayload(es[1..]))
    ensures |es| > 1 ==> |ListPayload(es[1..])| < NPOS
  {
    if |es| > 1 { ListPayloadIs(es[1..]); }
    ExtractEntry(es[0].0, es[0].1, Body(es[1..]));
  }

  /** Unfolding one extraction. */
  lemma ReadOne(data: string, e: Entry, rest: string, es: seq<Entry>, left: string)
    requires |data| < NPOS && |rest| < NPOS
    requires Extract(data) == (e, rest) && ReadEntries(rest, |es|) == (es, left)
    ensures ReadEntries(data, |es| + 1) == ([e] + es, left)
  {
  }

  lemma {:induction false} EntriesRoundTrip(es: seq<Entry>)
    requires es != [] && NoColons(es) && |ListPayload(es)| < NPOS
    ensures ReadEntries(ListPayload(es), |es|) == (es, VOID)
  {
    assert NoColon(es[0]);
    ExtractFirst(es);
    if |es| > 1 { EntriesRoundTrip(es[1..]); }
    ReadOne(ListPayload(es), es[0], if |es| == 1 then VOID else ListPayload(es[1..]), es[1..], VOID);
    assert [es[0]] + es[1..] == es;
  }

  lemma CountAndBody(count: string, body: string)
    requires |count + body| < NPOS && (body == "" || body[0] == ':') && ':' !in count
    ensures FindFirstOf(count + body, ':', 0) == if body == "" then NPOS else |count|
    ensures (count + body)[..|count|] == count
    ensures body != "" ==> (count + body)[|count| + 1..] == body[1..]
  {
    var data := count + body;
    if body == "" {
      assert data[0..] == count;
      FindNone(data, ':', 0);
    } else {
      assert data[0..|count|] == count && data[|count|] == ':';
      FindIs(data, ':', 0, |count|);
    }
  }

  lemma ListSplits(es: seq<Entry>)
    requires |es| < 0x8000_0000 && |ListText(es)| < NPOS
    ensures ListCount(ListText(es)) == |es|
    ensures es != [] ==> ListBody(ListText(es)) == ListPayload(es)
  {
    Decimal.AtoiPrint(|es|);
    if es != [] { ListPayloadIs(es); }
    CountAndBody(Decimal.Print(|es|), Body(es));
  }

  lemma {:induction false} ReadHasNoColons(data: string, n: nat)
    requires |data| < NPOS
    ensures NoColons(ReadEntries(data, n).0)
    decreases n
  {
    if n > 0 {
      var (e, rest) := Extract(data);
      ReadHasNoColons(rest, n - 1);
      assert NoColon(e);
    }
  }

  /** The client reads back exactly the entries the server wrote, in as many
      extractions and with nothing left, if and only if no nickname and no
      name contains a `:`. */
  lemma ListRoundTrip(es: seq<Entry>)
    requires |es| < 0x8000_0000 && |ListText(es)| < NPOS
    ensures ReadList(ListText(es)).0 == es <==> NoColons(es)
    ensures NoColons(es) && es != [] ==> ReadList(ListText(es)).1 == VOID
  {
    ListSplits(es);
    ReadHasNoColons(ListBody(ListText(es)), ListCount(ListText(es)));
    if es != [] && NoColons(es) { EntriesRoundTrip(es); }
  }
}
