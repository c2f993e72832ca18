/** The generic request/acknowledge family of server.js: the sixteen
    inbound event names and the outbound name computed from each. */
module EventNames {
  import opened JsString

  const RequestEvents: seq<string> := [
    "registerRequest",
    "verifyRequest",
    "depositRequest",
    "withdrawalRequest",
    "selectAllIds",
    "selectIds",
    "selectHistoryAllIds",
    "selectHistoryIds",
    "selectWithdrawalAllIds",
    "selectWithdrawalIds",
    "selectWithdrawalHistoryAllIds",
    "selectWithdrawalHistoryIds",
    "selectCodeVerifyAllIds",
    "selectCodeVerifyIds",
    "selectRegisterAllIds",
    "selectRegisterIds"
  ]

  /** The chain of four first-occurrence replacements that names the echo
      of a request event. */
  function ResponseEvent(eventName: string): string {
    ReplaceFirst(
      ReplaceFirst(
        ReplaceFirst(
          ReplaceFirst(eventName, "Request", "Recieve"),
          "select", "select"),
        "Ids", "MultiIds"),
      "Id", "MultiId")
  }

  /** The acknowledgment event that follows every echo. */
  function AckEvent(eventName: string): string {
    eventName + "Ack"
  }

  /** `<prefix>Request` becomes `<prefix>Recieve` when the prefix has no `I`
      and no `q`: only the suffix can match `Request`, and nothing is left
      for `Ids` or `Id` to match. */
  lemma RequestName(prefix: string)
    requires 'I' !in prefix && 'q' !in prefix
    ensures ResponseEvent(prefix + "Request") == prefix + "Recieve"
  {
    var s1 := prefix + "Recieve";
    var r1 := ReplaceFirst(prefix + "Request", "Request", "Recieve");
    var r2 := ReplaceFirst(r1, "select", "select");
    var r3 := ReplaceFirst(r2, "Ids", "MultiIds");
    assert r1 == s1 by { RequestFirstRequest(prefix); }
    assert r2 == s1 by { ReplaceByItself(s1, "select"); }
    assert r3 == s1 by { RecieveNoId(prefix, "Ids", "MultiIds"); }
    RecieveNoId(prefix, "Id", "MultiId");
  }

  lemma RequestFirstRequest(prefix: string)
    requires 'q' !in prefix
    ensures ReplaceFirst(prefix + "Request", "Request", "Recieve") == prefix + "Recieve"
  {
    var s0 := prefix + "Request";
    var k := |prefix|;
    assert s0[k..k + 7] == "Request";
    forall j | 2 <= j < k + 2 ensures s0[j] != 'q' {
      if j < k { assert s0[j] == prefix[j]; }
    }
    ReplaceAt(s0, "Request", "Recieve", k, 2);
    assert s0[..k] == prefix && s0[k + 7..] == [];
  }

  lemma RecieveNoId(prefix: string, pat: string, rep: string)
    requires 'I' !in prefix && |pat| > 0 && pat[0] == 'I'
    ensures ReplaceFirst(prefix + "Recieve", pat, rep) == prefix + "Recieve"
  {
    var s1 := prefix + "Recieve";
    forall j | 0 <= j < |s1| ensures s1[j] != 'I' {
      if j < |prefix| { assert s1[j] == prefix[j]; }
    }
    MissingChar(s1, pat, rep, 0);
  }

  /** `<prefix>Ids` becomes `<prefix>MultiMultiIds` when the prefix has no
      `I` and no `q`: the `Id` that the last replacement finds first is the
      one the `Ids` replacement has just inserted. */
  lemma IdsName(prefix: string)
    requires 'I' !in prefix && 'q' !in prefix
    ensures ResponseEvent(prefix + "Ids") == prefix + "MultiMultiIds"
  {
    var s0 := prefix + "Ids";
    var r1 := ReplaceFirst(s0, "Request", "Recieve");
    var r2 := ReplaceFirst(r1, "select", "select");
    var r3 := ReplaceFirst(r2, "Ids", "MultiIds");
    assert r1 == s0 by { IdsNoRequest(prefix); }
    assert r2 == s0 by { ReplaceByItself(s0, "select"); }
    assert r3 == prefix + "MultiIds" by { IdsFirstIds(prefix); }
    IdsFirstId(prefix);
  }

  lemma IdsNoRequest(prefix: string)
    requires 'q' !in prefix
    ensures ReplaceFirst(prefix + "Ids", "Request", "Recieve") == prefix + "Ids"
  {
    var s0 := prefix + "Ids";
    forall j | 0 <= j < |s0| ensures s0[j] != 'q' {
      if j < |prefix| { assert s0[j] == prefix[j]; }
    }
    MissingChar(s0, "Request", "Recieve", 2);
  }

  lemma IdsFirstIds(prefix: string)
    requires 'I' !in prefix
    ensures ReplaceFirst(prefix + "Ids", "Ids", "MultiIds") == prefix + "MultiIds"
  {
    var s0 := prefix + "Ids";
    var k := |prefix|;
    assert s0[k..k + 3] == "Ids";
    forall j | 0 <= j < k ensures s0[j] != 'I' {
      assert s0[j] == prefix[j];
    }
    ReplaceAt(s0, "Ids", "MultiIds", k, 0);
    assert s0[..k] == prefix && s0[k + 3..] == [];
  }

  lemma IdsFirstId(prefix: string)
    requires 'I' !in prefix
    ensures ReplaceFirst(prefix + "MultiIds", "Id", "MultiId") == prefix + "MultiMultiIds"
  {
    var s1 := prefix + "MultiIds";
    var k := |prefix|;
    assert s1[k + 5..k + 7] == "Id";
    forall j | 0 <= j < k + 5 ensures s1[j] != 'I' {
      if j < k { assert s1[j] == prefix[j]; }
    }
    ReplaceAt(s1, "Id", "MultiId", k + 5, 0);
    assert s1[..k + 5] == prefix + "Multi" && s1[k + 7..] == "s";
    assert prefix + "Multi" + "MultiId" + "s" == prefix + "MultiMultiIds";
  }

  /** The outbound names the replace chain yields for the request events,
      position by position. Note the doubled `MultiMulti`. */
  const ResponseEvents: seq<string> := [
    "registerRecieve",
    "verifyRecieve",
    "depositRecieve",
    "withdrawalRecieve",
    "selectAllMultiMultiIds",
    "selectMultiMultiIds",
    "selectHistoryAllMultiMultiIds",
    "selectHistoryMultiMultiIds",
    "selectWithdrawalAllMultiMultiIds",
    "selectWithdrawalMultiMultiIds",
    "selectWithdrawalHistoryAllMultiMultiIds",
    "selectWithdrawalHistoryMultiMultiIds",
    "selectCodeVerifyAllMultiMultiIds",
    "selectCodeVerifyMultiMultiIds",
    "selectRegisterAllMultiMultiIds",
    "selectRegisterMultiMultiIds"
  ]

  /** The names of the table split into a prefix and the suffix the replace
      chain acts on. None of the prefixes contains `I` or `q`. */
  const TransactionPrefixes: seq<string> := ["register", "verify", "deposit", "withdrawal"]
  const QueryPrefixes: seq<string> := [
    "selectAll", "select", "selectHistoryAll", "selectHistory",
    "selectWithdrawalAll", "selectWithdrawal", "selectWithdrawalHistoryAll", "selectWithdrawalHistory",
    "selectCodeVerifyAll", "selectCodeVerify", "selectRegisterAll", "selectRegister"
  ]

  lemma TransactionShape()
    ensures |RequestEvents| == |ResponseEvents| == 16
    ensures forall i :: 0 <= i < 4 ==>
      && RequestEvents[i] == TransactionPrefixes[i] + "Request"
      && ResponseEvents[i] == TransactionPrefixes[i] + "Recieve"
  {
    assert RequestEvents[0] == TransactionPrefixes[0] + "Request";
    assert RequestEvents[1] == TransactionPrefixes[1] + "Request";
    assert RequestEvents[2] == TransactionPrefixes[2] + "Request";
    assert RequestEvents[3] == TransactionPrefixes[3] + "Request";
    assert ResponseEvents[0] == TransactionPrefixes[0] + "Recieve";
    assert ResponseEvents[1] == TransactionPrefixes[1] + "Recieve";
    assert ResponseEvents[2] == TransactionPrefixes[2] + "Recieve";
    assert ResponseEvents[3] == TransactionPrefixes[3] + "Recieve";
  }

  lemma TransactionPrefixesLackIq()
    ensures forall p :: p in TransactionPrefixes ==> 'I' !in p && 'q' !in p
  {
  }

  lemma QueryShape1()
    ensures forall i :: 4 <= i < 8 ==>
      && RequestEvents[i] == QueryPrefixes[i - 4] + "Ids"
      && ResponseEvents[i] == QueryPrefixes[i - 4] + "MultiMultiIds"
  {
    assert RequestEvents[4] == QueryPrefixes[0] + "Ids";
    assert RequestEvents[5] == QueryPrefixes[1] + "Ids";
    assert RequestEvents[6] == QueryPrefixes[2] + "Ids";
    assert RequestEvents[7] == QueryPrefixes[3] + "Ids";
    assert ResponseEvents[4] == QueryPrefixes[0] + "MultiMultiIds";
    assert ResponseEvents[5] == QueryPrefixes[1] + "MultiMultiIds";
    assert ResponseEvents[6] == QueryPrefixes[2] + "MultiMultiIds";
    assert ResponseEvents[7] == QueryPrefixes[3] + "MultiMultiIds";
  }

  lemma QueryShape2()
    ensures forall i :: 8 <= i < 12 ==>
      && RequestEvents[i] == QueryPrefixes[i - 4] + "Ids"
      && ResponseEvents[i] == QueryPrefixes[i - 4] + "MultiMultiIds"
  {
    assert RequestEvents[8] == QueryPrefixes[4] + "Ids";
    assert RequestEvents[9] == QueryPrefixes[5] + "Ids";
    assert RequestEvents[10] == QueryPrefixes[6] + "Ids";
    assert RequestEvents[11] == QueryPrefixes[7] + "Ids";
    assert ResponseEvents[8] == QueryPrefixes[4] + "MultiMultiIds";
    assert ResponseEvents[9] == QueryPrefixes[5] + "MultiMultiIds";
    assert ResponseEvents[10] == QueryPrefixes[6] + "MultiMultiIds";
    assert ResponseEvents[11] == QueryPrefixes[7] + "MultiMultiIds";
  }

  lemma QueryShape3()
    ensures forall i :: 12 <= i < 16 ==>
      && RequestEvents[i] == QueryPrefixes[i - 4] + "Ids"
      && ResponseEvents[i] == QueryPrefixes[i - 4] + "MultiMultiIds"
  {
    assert RequestEvents[12] == QueryPrefixes[8] + "Ids";
    assert RequestEvents[13] == QueryPrefixes[9] + "Ids";
    assert RequestEvents[14] == QueryPrefixes[10] + "Ids";
    assert RequestEvents[15] == QueryPrefixes[11] + "Ids";
    assert ResponseEvents[12] == QueryPrefixes[8] + "MultiMultiIds";
    assert ResponseEvents[13] == QueryPrefixes[9] + "MultiMultiIds";
    assert ResponseEvents[14] == QueryPrefixes[10] + "MultiMultiIds";
    assert ResponseEvents[15] == QueryPrefixes[11] + "MultiMultiIds";
  }

  lemma QueryPrefixesLackIq()
    ensures forall p :: p in QueryPrefixes ==> 'I' !in p && 'q' !in p
  {
  }

  /** The request event at position `i` is echoed under the name at the same
      position of `ResponseEvents`. */
  lemma ResponseEventAt(i: nat)
    requires i < |RequestEvents|
    ensures ResponseEvent(RequestEvents[i]) == ResponseEvents[i]
  {
    TransactionShape();
    if i < 4 {
      TransactionPrefixesLackIq();
      RequestName(TransactionPrefixes[i]);
    } else {
      QueryShape1();
      QueryShape2();
      QueryShape3();
      QueryPrefixesLackIq();
      IdsName(QueryPrefixes[i - 4]);
    }
  }

  /** The whole table at once. */
  lemma ResponseEventTable()
    ensures |ResponseEvents| == |RequestEvents|
    ensures forall i :: 0 <= i < |RequestEvents| ==> ResponseEvent(RequestEvents[i]) == ResponseEvents[i]
  {
    forall i | 0 <= i < |RequestEvents| {
      ResponseEventAt(i);
    }
  }
}
