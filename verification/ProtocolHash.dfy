/** What equal hash inputs mean, and what validation guarantees of the generated configuration. */
module ProtocolHash {
  import opened Checksums
  import opened Wire
  import opened StreamParser
  import opened Codegen

  // ---------------------------------------------------------------------
  // The sorted table
  // ---------------------------------------------------------------------

  /** Accepted, and every ID is a number: a null ID passes validation but cannot be sorted. */
  predicate Usable(src: Source)
  {
    Acceptable(src) && forall i | 0 <= i < |src.messages| :: src.messages[i].id.Number?
  }

  predicate DistinctKeys(messages: seq<Message>)
  {
    forall i, j | 0 <= i < j < |messages| :: Key(messages[i]) != Key(messages[j])
  }

  predicate Ascending(messages: seq<Message>)
  {
    forall i, j | 0 <= i < j < |messages| :: Key(messages[i]) < Key(messages[j])
  }

  predicate NumberIds(messages: seq<Message>)
  {
    forall m | m in messages :: ByteValue(m.id)
  }

  lemma AscendingSnoc(sorted: seq<Message>, m: Message)
    requires Ascending(sorted) && forall x | x in sorted :: Key(x) < Key(m)
    ensures Ascending(sorted + [m])
  {
    assert forall i | 0 <= i < |sorted| :: sorted[i] in sorted;
  }

  lemma {:induction false} InsertAscends(sorted: seq<Message>, m: Message)
    requires Ascending(sorted) && forall x | x in sorted :: Key(x) != Key(m)
    ensures Ascending(Insert(sorted, m))
    ensures forall x :: x in Insert(sorted, m) <==> x in sorted || x == m
  {
    forall x | x in sorted
      ensures Key(x) <= Key(sorted[|sorted| - 1])
      ensures x in sorted[..|sorted| - 1] ==> Key(x) < Key(sorted[|sorted| - 1])
    {
    }
    if sorted != [] && Key(sorted[|sorted| - 1]) > Key(m) {
      var before, last := sorted[..|sorted| - 1], sorted[|sorted| - 1];
      assert sorted == before + [last];
      InsertAscends(before, m);
      hide Ascending;
      AscendingSnoc(Insert(before, m), last);
    } else {
      AscendingSnoc(sorted, m);
    }
  }

  lemma {:induction false} SortAscends(messages: seq<Message>)
    requires DistinctKeys(messages)
    ensures Ascending(Sort(messages))
    ensures forall x :: x in Sort(messages) <==> x in messages
  {
    if messages != [] {
      var n := |messages| - 1;
      SortAscends(messages[..n]);
      assert messages == messages[..n] + [messages[n]];
      InsertAscends(Sort(messages[..n]), messages[n]);
    }
  }

  lemma UsableTable(src: Source)
    requires Usable(src)
    ensures DistinctKeys(All(src)) && NumberIds(All(src))
    ensures Ascending(Table(src)) && NumberIds(Table(src))
    ensures forall m :: m in Table(src) <==> m in src.messages || m in SYSTEM_MESSAGES
  {
    var all := All(src);
    forall i | 0 <= i < |src.messages|
      ensures ByteValue(all[i].id) && !Reserved(all[i].id.n)
    {
      assert MessageOk(src.messages[i], src.aliases);
    }
    forall i, j | 0 <= i < j < |all|
      ensures Key(all[i]) != Key(all[j])
    {
      if j < |src.messages| {
        assert src.messages[i].id != src.messages[j].id;
      }
    }
    SortAscends(all);
  }

  // ---------------------------------------------------------------------
  // The hash input is canonical
  // ---------------------------------------------------------------------

  predicate AscendingContracts(contracts: seq<Contract>)
  {
    && (forall i | 0 <= i < |contracts| :: contracts[i].id.Number?)
    && forall i, j | 0 <= i < j < |contracts| :: contracts[i].id.n < contracts[j].id.n
  }

  ghost predicate SameElements(a: seq<Contract>, b: seq<Contract>)
  {
    forall c :: c in a <==> c in b
  }

  lemma SameLast(a: seq<Contract>, b: seq<Contract>)
    requires AscendingContracts(a) && AscendingContracts(b) && SameElements(a, b) && a != []
    ensures b != [] && a[|a| - 1] == b[|b| - 1]
    ensures SameElements(a[..|a| - 1], b[..|b| - 1])
  {
    var n := |a| - 1;
    assert a[n] in b;
    var m := |b| - 1;
    assert b[m] in a;
    assert a == a[..n] + [a[n]] && b == b[..m] + [b[m]];
    assert a[n] !in a[..n] && b[m] !in b[..m];
    forall c
      ensures c in a[..n] <==> c in b[..m]
    {
      assert c in a <==> c in a[..n] || c == a[n];
      assert c in b <==> c in b[..m] || c == b[m];
    }
  }

  /** Ascending contracts are determined by which they are. */
  lemma {:induction false} SortedOnce(a: seq<Contract>, b: seq<Contract>)
    requires AscendingContracts(a) && AscendingContracts(b) && SameElements(a, b)
    ensures a == b
  {
    assert b == [] || b[0] in b;
    if a != [] {
      SameLast(a, b);
      SortedOnce(a[..|a| - 1], b[..|b| - 1]);
      assert a == a[..|a| - 1] + [a[|a| - 1]];
    }
  }

  lemma UsableContracts(src: Source)
    requires Usable(src)
    ensures AscendingContracts(Contracts(Table(src), src.aliases))
  {
    UsableTable(src);
    var table := Table(src);
    forall i | 0 <= i < |table|
      ensures ByteValue(table[i].id)
    {
      assert table[i] in table;
    }
  }

  predicate SameHeads(a: Source, b: Source)
  {
    && a.settings.header1 == b.settings.header1 && a.settings.header2 == b.settings.header2
    && ChecksumName(a.settings.checksum) == ChecksumName(b.settings.checksum)
    && Truthy(Or(a.settings.requireHandshake, Flag(true))) == Truthy(Or(b.settings.requireHandshake, Flag(true)))
  }

  /** Two type names stand for the same C type, each under its own aliases. */
  predicate SameType(name: string, aliases: map<string, string>, name': string, aliases': map<string, string>)
  {
    (if name in aliases then aliases[name] else name) == if name' in aliases' then aliases'[name'] else name'
  }

  /** Two messages agree on ID, direction, reliability and, field by field, on their C types. */
  predicate SameMessage(m: Message, aliases: map<string, string>, m': Message, aliases': map<string, string>)
  {
    && m'.id == m.id && m'.direction == m.direction && Truthy(m'.reliable) == Truthy(m.reliable)
    && m.fields.Types? && m'.fields.Types? && |m'.fields.types| == |m.fields.types|
    && forall k | 0 <= k < |m.fields.types| :: SameType(m.fields.types[k], aliases, m'.fields.types[k], aliases')
  }

  /** Each message of `a` has its like in `b`. */
  ghost predicate Matched(a: Source, b: Source)
  {
    forall m | m in a.messages :: exists m' | m' in b.messages :: SameMessage(m, a.aliases, m', b.aliases)
  }

  /** The types of the built-in messages. */
  predicate SameBuiltIns(a: Source, b: Source)
  {
    && SameType("uint8_t", a.aliases, "uint8_t", b.aliases)
    && SameType("uint32_t", a.aliases, "uint32_t", b.aliases)
  }

  lemma SameContractSameMessage(m: Message, aliases: map<string, string>, m': Message, aliases': map<string, string>)
    requires m.fields.Types? && m'.fields.Types?
    ensures ContractOf(m, aliases) == ContractOf(m', aliases') <==> SameMessage(m, aliases, m', aliases')
  {
    var names, names' := m.fields.types, m'.fields.types;
    var ctypes, ctypes' := CTypes(names, aliases), CTypes(names', aliases');
    if ContractOf(m, aliases) == ContractOf(m', aliases') {
      forall k | 0 <= k < |names|
        ensures SameType(names[k], aliases, names'[k], aliases')
      {
        assert ctypes[k] == ctypes'[k];
      }
    }
  }

  lemma FieldsAreTypes(src: Source, m: Message)
    requires Usable(src) && m in Table(src)
    ensures m.fields.Types? && m.id.Number? && (m in src.messages <==> m !in SYSTEM_MESSAGES)
    ensures m in src.messages ==> !Reserved(m.id.n)
  {
    UsableTable(src);
    assert m in src.messages ==> exists i | 0 <= i < |src.messages| ::
        src.messages[i] == m && MessageOk(m, src.aliases);
  }

  /** Same hash inputs: what stands where a message of one table stands in the other. */
  lemma SameHashMatches(a: Source, b: Source, m: Message) returns (m': Message)
    requires Usable(a) && Usable(b) && HashInputOf(a) == HashInputOf(b) && m in Table(a)
    ensures m' in Table(b) && SameMessage(m, a.aliases, m', b.aliases)
    ensures m in a.messages ==> m' in b.messages
    ensures m in SYSTEM_MESSAGES ==> m' == m
  {
    hide Table, Usable, SameMessage, ContractOf;
    var i :| 0 <= i < |Table(a)| && Table(a)[i] == m;
    assert Contracts(Table(a), a.aliases)[i] == Contracts(Table(b), b.aliases)[i];
    m' := Table(b)[i];
    FieldsAreTypes(a, m);
    FieldsAreTypes(b, m');
    UsableTable(b);
    SameContractSameMessage(m, a.aliases, m', b.aliases);
    assert m'.id == m.id by {
      SameIds(m, a.aliases, m', b.aliases);
    }
  }

  lemma SameIds(m: Message, aliases: map<string, string>, m': Message, aliases': map<string, string>)
    requires SameMessage(m, aliases, m', aliases')
    ensures m'.id == m.id
  {
  }

  /** With all messages matched the contracts of one table are among those of the other. */
  lemma MatchedContracts(a: Source, b: Source, c: Contract)
    requires Usable(a) && Usable(b) && Matched(a, b) && SameBuiltIns(a, b)
    requires c in Contracts(Table(a), a.aliases)
    ensures c in Contracts(Table(b), b.aliases)
  {
    hide Usable, Table, SameMessage, ContractOf;
    var table, table' := Table(a), Table(b);
    var i :| 0 <= i < |table| && ContractOf(table[i], a.aliases) == c;
    var m := table[i];
    UsableTable(a);
    UsableTable(b);
    FieldsAreTypes(a, m);
    var m' := m;
    if m in a.messages {
      m' :| m' in b.messages && SameMessage(m, a.aliases, m', b.aliases);
    } else {
      BuiltInsAlike(a, b, m);
    }
    assert m' in table';
    FieldsAreTypes(b, m');
    SameContractSameMessage(m, a.aliases, m', b.aliases);
    var j :| 0 <= j < |table'| && table'[j] == m';
    assert Contracts(table', b.aliases)[j] == c;
  }

  lemma BuiltInsAlike(a: Source, b: Source, m: Message)
    requires m in SYSTEM_MESSAGES
    ensures SameBuiltIns(a, b) ==> SameMessage(m, a.aliases, m, b.aliases)
    ensures SameMessage(ACK, a.aliases, ACK, b.aliases) && SameMessage(HEARTBEAT, a.aliases, HEARTBEAT, b.aliases)
            ==> SameBuiltIns(a, b)
  {
    var bytes, words := ACK.fields.types, HEARTBEAT.fields.types;
    assert bytes[0] == "uint8_t" && words[0] == "uint32_t";
  }

  lemma SameHashAllMatched(a: Source, b: Source)
    requires Usable(a) && Usable(b) && HashInputOf(a) == HashInputOf(b)
    ensures Matched(a, b) && SameBuiltIns(a, b)
  {
    hide Table, Usable, SameMessage, HashInputOf;
    UsableTable(a);
    forall m | m in a.messages
      ensures exists m' | m' in b.messages :: SameMessage(m, a.aliases, m', b.aliases)
    {
      var m' := SameHashMatches(a, b, m);
    }
    var ack := SameHashMatches(a, b, ACK);
    var heartbeat := SameHashMatches(a, b, HEARTBEAT);
    BuiltInsAlike(a, b, ACK);
  }

  /** The hash inputs of two descriptions are equal exactly when their heads and the types of the
      built-in messages agree and every message of either has its like in the other. The order in
      which messages are written and the names by which their types are called do not count. */
  lemma HashSeesContracts(a: Source, b: Source)
    requires Usable(a) && Usable(b)
    ensures HashInputOf(a) == HashInputOf(b)
            <==> SameHeads(a, b) && SameBuiltIns(a, b) && Matched(a, b) && Matched(b, a)
  {
    hide Usable, Table, Matched, SameBuiltIns;
    var inA, inB := Contracts(Table(a), a.aliases), Contracts(Table(b), b.aliases);
    if HashInputOf(a) == HashInputOf(b) {
      SameHashAllMatched(a, b);
      SameHashAllMatched(b, a);
    } else if SameHeads(a, b) && SameBuiltIns(a, b) && Matched(a, b) && Matched(b, a) {
      assert SameBuiltIns(b, a) by { BuiltInsSymmetric(a, b); }
      forall c
        ensures c in inA <==> c in inB
      {
        if c in inA { MatchedContracts(a, b, c); }
        if c in inB { MatchedContracts(b, a, c); }
      }
      UsableContracts(a);
      UsableContracts(b);
      SortedOnce(inA, inB);
    }
  }

  lemma BuiltInsSymmetric(a: Source, b: Source)
    requires SameBuiltIns(a, b)
    ensures SameBuiltIns(b, a)
  {
  }

  lemma AtMostOnce(messages: seq<Message>, i: nat)
    requires i < |messages| && forall j | 0 <= j < |messages| && j != i :: messages[j] != messages[i]
    ensures multiset(messages)[messages[i]] == 1
  {
    assert messages == messages[..i] + [messages[i]] + messages[i + 1..];
    assert messages[i] !in messages[..i] && messages[i] !in messages[i + 1..];
  }

  lemma AtLeastTwice(messages: seq<Message>, i: nat, j: nat)
    requires i < j < |messages| && messages[i] == messages[j]
    ensures multiset(messages)[messages[i]] >= 2
  {
    assert messages == messages[..j] + messages[j..];
    assert messages[..j][i] == messages[i] && messages[j..][0] == messages[i];
  }

  /** Validation does not care about the order either. */
  lemma UsableInAnyOrder(src: Source, messages: seq<Message>)
    requires Usable(src) && multiset(messages) == multiset(src.messages)
    ensures Usable(src.(messages := messages))
  {
    hide MessageOk, WirePayloadSize;
    var was := src.messages;
    var other := src.(messages := messages);
    forall i | 0 <= i < |messages|
      ensures messages[i] in was && MessageOk(messages[i], src.aliases) && messages[i].id.Number?
    {
      assert messages[i] in multiset(was);
    }
    forall i, j | 0 <= i < j < |messages|
      ensures messages[i].id != messages[j].id
    {
      var k :| 0 <= k < |was| && was[k] == messages[i];
      if messages[i].id == messages[j].id {
        var l :| 0 <= l < |was| && was[l] == messages[j];
        AtLeastTwice(messages, i, j);
        AtMostOnce(was, k);
      }
    }
    forall m | m in All(other) && Sizable(m)
      ensures WirePayloadSize(m, src.aliases) + OVERHEAD <= src.settings.bufferSize.n
    {
      assert m in All(src);
    }
  }

  /** Writing the messages in another order changes nothing. */
  lemma OrderDoesNotMatter(src: Source, messages: seq<Message>)
    requires Usable(src) && multiset(messages) == multiset(src.messages)
    ensures HashInputOf(src.(messages := messages)) == HashInputOf(src)
  {
    hide Usable, SameMessage, HashInputOf;
    var other := src.(messages := messages);
    UsableInAnyOrder(src, messages);
    forall m
      ensures m in messages <==> m in src.messages
      ensures m in messages ==> SameMessage(m, src.aliases, m, src.aliases)
    {
      assert m in multiset(messages) <==> m in multiset(src.messages);
      if m in messages {
        LikeItself(src, m);
      }
    }
    HashSeesContracts(other, src);
  }

  lemma LikeItself(src: Source, m: Message)
    requires Usable(src) && m in src.messages
    ensures SameMessage(m, src.aliases, m, src.aliases)
  {
    UsableTable(src);
    FieldsAreTypes(src, m);
  }

  /** Two spellings of a name, letter by letter the same but for case. */
  predicate SameLetters(s: string, t: string)
  {
    |s| == |t| && forall i | 0 <= i < |s| ::
      || s[i] == t[i]
      || ('a' <= s[i] <= 'z' && t[i] == s[i] - 'a' + 'A')
      || ('a' <= t[i] <= 'z' && s[i] == t[i] - 'a' + 'A')
  }

  /** Nor does it matter how the checksum's name is spelled, or whether a default is written down. */
  lemma SpellingDoesNotMatter(src: Source, s: string, t: string)
    requires Usable(src) && SameLetters(s, t)
    ensures src.settings.checksum == Text(s) ==>
              HashInputOf(src.(settings := src.settings.(checksum := Text(t)))) == HashInputOf(src)
    ensures src.settings.checksum == Absent ==>
              HashInputOf(src.(settings := src.settings.(checksum := Text("CRC8")))) == HashInputOf(src)
    ensures src.settings.requireHandshake == Absent ==>
              HashInputOf(src.(settings := src.settings.(requireHandshake := Flag(true)))) == HashInputOf(src)
  {
    assert Upper(s) == Upper(t);
    assert Upper("CRC8") == "CRC8";
    TableOfMessages(src, src.(settings := src.settings.(checksum := Text(t))));
    TableOfMessages(src, src.(settings := src.settings.(checksum := Text("CRC8"))));
    TableOfMessages(src, src.(settings := src.settings.(requireHandshake := Flag(true))));
  }

  lemma TableOfMessages(a: Source, b: Source)
    requires a.messages == b.messages
    ensures Table(a) == Table(b)
  {
  }

  /** `to` calls some types by other names that stand for the same C types; the names `uint8_t` and
      `uint32_t`, which the built-in messages use, keep their meaning. */
  predicate Renames(from: Source, to: Source)
  {
    && to.settings == from.settings && |to.messages| == |from.messages|
    && (forall i | 0 <= i < |from.messages| ::
          SameMessage(from.messages[i], from.aliases, to.messages[i], to.aliases))
    && SameBuiltIns(from, to)
  }

  lemma AliasesDoNotMatter(from: Source, to: Source)
    requires Usable(from) && Usable(to) && Renames(from, to)
    ensures HashInputOf(to) == HashInputOf(from)
  {
    hide Usable, HashInputOf, SameMessage;
    forall m | m in from.messages
      ensures exists m' | m' in to.messages :: SameMessage(m, from.aliases, m', to.aliases)
    {
      var i :| 0 <= i < |from.messages| && from.messages[i] == m;
      assert to.messages[i] in to.messages;
    }
    forall m | m in to.messages
      ensures exists m' | m' in from.messages :: SameMessage(m, to.aliases, m', from.aliases)
    {
      var i :| 0 <= i < |to.messages| && to.messages[i] == m;
      SameBackwards(from.messages[i], from.aliases, m, to.aliases);
      assert from.messages[i] in from.messages;
    }
    HashSeesContracts(from, to);
  }

  lemma SameBackwards(m: Message, aliases: map<string, string>, m': Message, aliases': map<string, string>)
    requires SameMessage(m, aliases, m', aliases')
    ensures SameMessage(m', aliases', m, aliases)
  {
  }

  // ---------------------------------------------------------------------
  // Equal hash inputs make equal links
  // ---------------------------------------------------------------------

  lemma {:induction false} SameContractsSameTable(a: seq<Message>, b: seq<Message>, forA: map<string, string>,
      forB: map<string, string>)
    requires Contracts(a, forA) == Contracts(b, forB)
    ensures forall id: byte :: ExpectedPayloadSize(a, forA, id) == ExpectedPayloadSize(b, forB, id)
    ensures forall id: byte :: IsReliablePacket(a, id) == IsReliablePacket(b, id)
    ensures MaxPayload(a, forA) == MaxPayload(b, forB) && Ids(a) == Ids(b)
  {
    if a != [] {
      assert Contracts(a, forA)[0] == Contracts(b, forB)[0];
      assert Contracts(a[1..], forA) == Contracts(a, forA)[1..] && Contracts(b[1..], forB) == Contracts(b, forB)[1..];
      SameContractsSameTable(a[1..], b[1..], forA, forB);
    } else {
      assert |b| == |Contracts(b, forB)| == 0;
    }
  }

  /** Two ends whose descriptions have the same hash input have the same link configuration: header
      bytes, checksum, and for every ID the same expected size and reliability. */
  lemma EqualHashEqualLink(a: Source, b: Source)
    requires Usable(a) && Usable(b) && HashInputOf(a) == HashInputOf(b)
    ensures WireOf(a) == WireOf(b)
    ensures forall id: byte ::
              ExpectedPayloadSize(Table(a), a.aliases, id) == ExpectedPayloadSize(Table(b), b.aliases, id)
    ensures forall id: byte :: IsReliablePacket(Table(a), id) == IsReliablePacket(Table(b), id)
  {
    hide Acceptable, Merge, ContractOf, ExpectedPayloadSize, IsReliablePacket, MaxPayload, Ids;
    SameContractsSameTable(Table(a), Table(b), a.aliases, b.aliases);
    var sizes, sizes' := WireOf(a).sizes, WireOf(b).sizes;
    assert sizes.Keys == sizes'.Keys && forall id | id in sizes :: sizes[id] == sizes'[id];
  }

  // ---------------------------------------------------------------------
  // What validation guarantees
  // ---------------------------------------------------------------------

  /** The alias table leaves the sizes of the built-in messages alone. */
  predicate BuiltInsKept(aliases: map<string, string>)
  {
    SizeOf(CType("uint8_t", aliases)) == 1 && SizeOf(CType("uint32_t", aliases)) == 4
  }

  lemma BuiltInSizes(aliases: map<string, string>)
    ensures WirePayloadSize(ACK, aliases) == 2 * SizeOf(CType("uint8_t", aliases))
    ensures WirePayloadSize(HEARTBEAT, aliases) == SizeOf(CType("uint32_t", aliases))
    ensures WirePayloadSize(HANDSHAKE, aliases) == SizeOf(CType("uint32_t", aliases))
  {
    var one, four := CType("uint8_t", aliases), CType("uint32_t", aliases);
    assert CTypes(FieldNames(ACK), aliases) == [one, one] && CTypes(FieldNames(HEARTBEAT), aliases) == [four];
    assert [one, one][..1] == [one] && [one][..0] == [] && [four][..0] == [];
    assert SumOfSizes([one]) == SizeOf(one) && SumOfSizes([four]) == SizeOf(four);
  }

  /** How many of the types are called one of these names. */
  function Occurs(ctypes: seq<string>, names: set<string>): nat
  {
    if ctypes == [] then 0
    else Occurs(ctypes[..|ctypes| - 1], names) + if ctypes[|ctypes| - 1] in names then 1 else 0
  }

  lemma {:induction false} SizeByTypes(ctypes: seq<string>)
    requires forall i | 0 <= i < |ctypes| :: Supported(ctypes[i])
    ensures SumOfSizes(ctypes)
         == Occurs(ctypes, {"uint8_t"}) + 2 * Occurs(ctypes, {"uint16_t"})
            + 4 * Occurs(ctypes, {"uint32_t", "int32_t", "float"})
  {
    if ctypes != [] {
      SizeByTypes(ctypes[..|ctypes| - 1]);
      assert Supported(ctypes[|ctypes| - 1]);
    }
  }

  /** What every accepted message is like: its bytes counted by type fit a length byte, reliable
      ones are only sent by the host, and no business message has a built-in ID. */
  lemma AdmittedMessage(src: Source, m: Message)
    requires Acceptable(src) && m in src.messages
    ensures m.fields.Types? && m.fields.types != []
    ensures var ctypes := CTypes(m.fields.types, src.aliases);
            var size := Occurs(ctypes, {"uint8_t"}) + 2 * Occurs(ctypes, {"uint16_t"})
                        + 4 * Occurs(ctypes, {"uint32_t", "int32_t", "float"});
            1 <= size + (if m.reliable == Flag(true) then 1 else 0) <= 255
    ensures m.direction in {Text("tx"), Text("rx"), Text("both")}
    ensures m.reliable == Flag(true) ==> m.direction == Text("tx")
    ensures m.id.Null? || (m.id.Number? && 0 <= m.id.n <= 252)
  {
    hide Occurs;
    var i :| 0 <= i < |src.messages| && src.messages[i] == m;
    assert MessageOk(m, src.aliases);
    var ctypes := CTypes(m.fields.types, src.aliases);
    forall k | 0 <= k < |ctypes|
      ensures Supported(ctypes[k])
    {
      assert ctypes[k] == CType(m.fields.types[k], src.aliases);
    }
    SizeByTypes(ctypes);
    SumAtLeast(ctypes);
  }

  /** The switch finds a message of the table by its ID. */
  lemma {:induction false} Found(table: seq<Message>, aliases: map<string, string>, m: Message, id: byte)
    requires Ascending(table) && NumberIds(table) && m in table && m.id == Number(id)
    ensures ExpectedPayloadSize(table, aliases, id) == WirePayloadSize(m, aliases)
    ensures IsReliablePacket(table, id) == Truthy(m.reliable)
    ensures id in Ids(table) && WirePayloadSize(m, aliases) <= MaxPayload(table, aliases)
  {
    var i :| 0 <= i < |table| && table[i] == m;
    if i > 0 {
      assert Key(table[0]) < Key(m) && table[0] in table;
      assert table[1..][i - 1] == m;
      assert forall x | x in table[1..] :: x in table;
      Found(table[1..], aliases, m, id);
    }
  }

  lemma {:induction false} IdsAreUsed(table: seq<Message>, id: byte) returns (m: Message)
    requires NumberIds(table) && id in Ids(table)
    ensures m in table && m.id == Number(id)
  {
    assert table[0] in table;
    if table[0].id == Number(id) {
      m := table[0];
    } else {
      assert forall x | x in table[1..] :: x in table;
      m := IdsAreUsed(table[1..], id);
    }
  }

  lemma {:induction false} SomeLargest(table: seq<Message>, aliases: map<string, string>) returns (m: Message)
    requires table != []
    ensures m in table && WirePayloadSize(m, aliases) == MaxPayload(table, aliases)
  {
    m := table[0];
    if |table| > 1 {
      var largest := SomeLargest(table[1..], aliases);
      if WirePayloadSize(largest, aliases) > WirePayloadSize(m, aliases) {
        m := largest;
      }
    }
  }

  /** Every message of a usable table has a payload that fits, a reliable one at least two bytes. */
  lemma TableSizes(src: Source, m: Message)
    requires Usable(src) && m in Table(src)
    ensures 1 <= WirePayloadSize(m, src.aliases) <= 255
    ensures WirePayloadSize(m, src.aliases) + OVERHEAD <= src.settings.bufferSize.n
    ensures Truthy(m.reliable) ==> 2 <= WirePayloadSize(m, src.aliases) && m.id.Number? && !Reserved(m.id.n)
  {
    UsableTable(src);
    BuiltInSizes(src.aliases);
    if m in src.messages {
      var i :| 0 <= i < |src.messages| && src.messages[i] == m;
      assert MessageOk(m, src.aliases);
      SumAtLeast(CTypes(FieldNames(m), src.aliases));
    }
    assert m in All(src) && Sizable(m);
  }

  /** Validation admits exactly the links the rest of this model is about, provided that the alias
      table does not redefine the types of the built-in messages, which validation does not look
      at. The buffer always holds the largest frame. */
  lemma ValidIffBuiltInsKept(src: Source)
    requires Usable(src)
    ensures Valid(WireOf(src)) <==> BuiltInsKept(src.aliases)
    ensures WireOf(src).maxPayload + OVERHEAD <= src.settings.bufferSize.n
  {
    hide WirePayloadSize, Acceptable, Sort;
    UsableTable(src);
    BuiltInSizes(src.aliases);
    var table, aliases, p := Table(src), src.aliases, WireOf(src);
    assert ACK in SYSTEM_MESSAGES && HEARTBEAT in SYSTEM_MESSAGES && HANDSHAKE in SYSTEM_MESSAGES;
    Found(table, aliases, ACK, ACK_ID);
    Found(table, aliases, HEARTBEAT, HEARTBEAT_ID);
    Found(table, aliases, HANDSHAKE, HANDSHAKE_ID);
    var largest := SomeLargest(table, aliases);
    TableSizes(src, largest);
    var largestId: byte := AsByte(largest.id);
    Found(table, aliases, largest, largestId);
    forall id | id in p.sizes
      ensures 1 <= p.sizes[id] <= p.maxPayload
      ensures id in p.reliable ==> 2 <= p.sizes[id] && !Reserved(id)
    {
      var m := IdsAreUsed(table, id);
      Found(table, aliases, m, id);
      TableSizes(src, m);
    }
    assert p.sizes[largestId] == p.maxPayload;
  }

  /** The lookups of the generated switch are those of the link. */
  lemma LookupsAgree(src: Source, id: byte)
    requires Usable(src)
    ensures ExpectedSize(WireOf(src), id) == ExpectedPayloadSize(Table(src), src.aliases, id)
    ensures id in WireOf(src).reliable <==> IsReliablePacket(Table(src), id)
  {
    UsableTable(src);
    if id !in Ids(Table(src)) {
      NotFound(Table(src), src.aliases, id);
    }
  }

  lemma {:induction false} NotFound(table: seq<Message>, aliases: map<string, string>, id: byte)
    requires id !in Ids(table)
    ensures ExpectedPayloadSize(table, aliases, id) == 0 && !IsReliablePacket(table, id)
  {
    if table != [] {
      assert table[0].id == Number(id) ==> AsByte(table[0].id) == id;
      NotFound(table[1..], aliases, id);
    }
  }

  // ---------------------------------------------------------------------
  // Where merging fails
  // ---------------------------------------------------------------------

  predicate Keyed(messages: seq<Message>)
  {
    forall i | 0 <= i < |messages| :: KeyOf(messages[i].id).Some?
  }

  lemma {:induction false} TryInsertIs(sorted: seq<Message>, m: Message)
    requires sorted != [] && (|sorted| == 1 || Keyed(sorted))
    ensures var r := TryInsert(sorted, m);
            if Keyed(sorted + [m]) then r == Some(Insert(sorted, m)) && Keyed(r.value) && |r.value| == |sorted| + 1
            else r == None
  {
    var n := |sorted| - 1;
    var before, last := sorted[..n], sorted[n];
    var more := sorted + [m];
    assert more[n] == last && more[n + 1] == m;
    assert forall i | 0 <= i <= n :: more[i] == sorted[i];
    assert forall i | 0 <= i < n :: (before + [m])[i] == sorted[i];
    if before != [] {
      TryInsertIs(before, m);
    } else {
      assert before + [m] == [m];
    }
    if Keyed(more) {
      assert Keyed(before + [m]) && Keyed(sorted);
      assert TryInsert(before, m) == Some(Insert(before, m)) && Keyed(Insert(before, m));
    }
  }

  /** Sorting two or more messages succeeds exactly when every one of them has a key. */
  lemma {:induction false} TrySortIs(messages: seq<Message>)
    ensures var r := TrySort(messages);
            if |messages| <= 1 || Keyed(messages) then
              r == Some(Sort(messages)) && |r.value| == |messages| && (Keyed(messages) ==> Keyed(r.value))
            else r == None
  {
    if messages != [] {
      var n := |messages| - 1;
      var before := messages[..n];
      TrySortIs(before);
      assert messages == before + [messages[n]];
      if 0 < n && TrySort(before).Some? {
        TryInsertIs(Sort(before), messages[n]);
        KeyedSnoc(Sort(before), before, messages[n]);
      }
    }
  }

  lemma KeyedSnoc(sorted: seq<Message>, messages: seq<Message>, m: Message)
    requires |sorted| == |messages| && (Keyed(messages) ==> Keyed(sorted))
    requires Keyed(messages) || (|messages| == 1 && sorted == messages)
    ensures Keyed(sorted + [m]) <==> Keyed(messages + [m])
  {
    if Keyed(messages) {
      assert (sorted + [m])[|sorted|] == (messages + [m])[|messages|];
    }
  }

  /** Of what validation accepts, merging succeeds exactly where no message has a null ID, and then
      yields the table. */
  lemma MergesIffNoNullId(src: Source)
    requires Acceptable(src)
    ensures Merge(src).Some? <==> forall i | 0 <= i < |src.messages| :: !src.messages[i].id.Null?
    ensures Merge(src).Some? ==> Usable(src) && Merge(src).value == Table(src)
  {
    hide MessageOk, SettingsOk, TrySort, Sort;
    var all := All(src);
    TrySortIs(all);
    forall i | 0 <= i < |src.messages|
      ensures all[i] == src.messages[i]
      ensures KeyOf(all[i].id).Some? <==> !src.messages[i].id.Null?
      ensures src.messages[i].id.Null? || src.messages[i].id.Number?
    {
      IdIsNullOrNumber(src.messages[i], src.aliases);
    }
    assert forall i | |src.messages| <= i < |all| :: all[i] in SYSTEM_MESSAGES;
  }

  lemma IdIsNullOrNumber(m: Message, aliases: map<string, string>)
    requires MessageOk(m, aliases)
    ensures m.id.Null? || m.id.Number?
  {
  }

  /** Validation does let a null ID through, and then merging fails. */
  lemma NullIdIsAccepted() returns (src: Source)
    ensures Acceptable(src) && Merge(src).None?
  {
    var m := Message(Null, Text("tx"), Absent, Types(["uint8_t"]));
    src := Source(PlainSettings(), PlainSerial(), [m], map[]);
    OneFieldIsOk(m, map[]);
    BuiltInSizes(map[]);
    MergesIffNoNullId(src);
    assert src.messages[0].id.Null?;
  }

  function PlainSettings(): Settings
  {
    Settings(Number(0x5A), Number(0xA5), Absent, Number(64), Absent, Absent, Absent,
             Absent, Absent, Absent, Absent, Absent, Absent, Absent)
  }

  function PlainSerial(): Serial
  {
    Serial(Number(115200), Text("/dev/ttyACM0"))
  }

  lemma OneFieldIsOk(m: Message, aliases: map<string, string>)
    requires IdOk(m.id) && m.direction == Text("tx") && m.reliable.Absent? && m.fields == Types(["uint8_t"])
    requires CType("uint8_t", aliases) == "uint8_t"
    ensures MessageOk(m, aliases) && WirePayloadSize(m, aliases) == 1
  {
    assert CTypes(FieldNames(m), aliases) == ["uint8_t"] && ["uint8_t"][..0] == [];
    assert SumOfSizes(["uint8_t"]) == 1;
  }

  /** And it accepts an alias table that shrinks the built-in messages, so that no valid link results. */
  lemma ShrunkBuiltInsAreAccepted() returns (src: Source)
    ensures Usable(src) && !BuiltInsKept(src.aliases) && !Valid(WireOf(src))
  {
    hide Table, Sort, WireOf;
    var m := Message(Number(1), Text("tx"), Absent, Types(["uint8_t"]));
    src := Source(PlainSettings(), PlainSerial(), [m], map["uint32_t" := "uint8_t"]);
    OneFieldIsOk(m, src.aliases);
    BuiltInSizes(src.aliases);
    ValidIffBuiltInsKept(src);
  }

  /** Every validated buffer makes a ring of eight or more cells. */
  lemma UsableRing(src: Source, capacity: nat)
    requires Usable(src) && src.settings.bufferSize.n <= capacity - 1
    ensures 8 <= capacity
  {
    BuiltInSizes(src.aliases);
    assert All(src)[|src.messages|] == ACK;
  }
}
