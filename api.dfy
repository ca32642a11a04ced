/**
  The request handler of main.py (`handle_request`, the `/key=<key>/cc=<cc>`
  route): the key gate, the empty and four-field format gates, the BIN taken
  from the card number, the "FALSE"-substring classification and the JSON
  reply. The reply is modelled as an HTTP status code and a body.
 */
module Api {
  import opened Text
  import opened BinLookup

  const WebKey := "AloneOp"
  const Gateway := "VBV Lookup"
  const Dev := "@YAMRAJSAHIL2"

  const PassedEmoji := "\U{2705}"
  const RejectedEmoji := "\U{274C}"
  const Passed := PassedEmoji + " Passed"
  const Rejected := RejectedEmoji + " Rejected"

  /** The JSON object of a reply: `{"error": ...}` or the card result. */
  datatype Body =
    | ErrorBody(error: string)
    | CardBody(cc: string, gateway: string, status: string, response: string, dev: string)

  datatype Reply = Reply(code: int, body: Body)

  const InvalidKey := Reply(403, ErrorBody("Invalid access key"))
  const MissingCard := Reply(400, ErrorBody("CC parameter is required"))
  const BadFormat := Reply(400, ErrorBody("Invalid CC format. Use CC|MM|YYYY|CVV"))

  /** The outcome label and the response text derived from a lookup. */
  datatype Verdict = Verdict(status: string, response: string)

  /** The outcome is Passed exactly when "FALSE" occurs in the lookup status;
      the response text is the outcome's emoji, a space, then the lookup
      message. */
  function Classify(v: LookupResult): (r: Verdict)
    ensures r.status == Passed <==> exists i :: OccursAt(v.status, "FALSE", i)
    ensures r.status == Passed || r.status == Rejected
    ensures |r.response| == |v.response| + 2
    ensures r.response[..1] == r.status[..1] && r.response[1] == ' ' && r.response[2..] == v.response
  {
    ContainsIff(v.status, "FALSE");
    if Contains(v.status, "FALSE") then
      Verdict(Passed, PassedEmoji + " " + v.response)
    else
      Verdict(Rejected, RejectedEmoji + " " + v.response)
  }

  /** The payload is well formed: non-empty and exactly four `|`-fields. */
  predicate WellFormed(cc: string) {
    cc != "" && |Split(cc, '|')| == 4
  }

  /** `handle_request(key, cc)` against the database `db`. */
  function HandleRequest(key: string, cc: string, db: Database): (r: Reply)
    ensures key != WebKey ==> r == InvalidKey
    ensures key == WebKey && cc == "" ==> r == MissingCard
    ensures key == WebKey && cc != "" && !WellFormed(cc) ==> r == BadFormat
    ensures r.code == 200 <==> key == WebKey && WellFormed(cc)
    ensures r.code == 200 ==> r.body.CardBody? && r.body.cc == cc && r.body.gateway == Gateway && r.body.dev == Dev
  {
    if key != WebKey then InvalidKey
    else if cc == "" then MissingCard
    else
      var parts := Split(cc, '|');
      if |parts| != 4 then BadFormat
      else
        var binNumber := Head(parts[0], 6);
        var verdict := Classify(Lookup(db, binNumber));
        Reply(200, CardBody(cc, Gateway, verdict.status, verdict.response, Dev))
  }

  /** The reply to a well-formed request with the right key, spelled out:
      the card echoed, the constants, and the classification of the lookup
      of the card number's first six characters. */
  lemma SuccessReply(cc: string, db: Database)
    requires WellFormed(cc)
    ensures var v := Classify(Lookup(db, Head(Split(cc, '|')[0], 6)));
      HandleRequest(WebKey, cc, db) == Reply(200, CardBody(cc, Gateway, v.status, v.response, Dev))
  {
  }

  /** A well-formed request with the right key is answered 200 with the card
      echoed, the fixed gateway and dev fields, and the classification of the
      lookup of the card number (only its first six characters matter). */
  lemma SuccessReportsLookup(cc: string, db: Database)
    requires WellFormed(cc)
    ensures var r := HandleRequest(WebKey, cc, db);
      var v := Lookup(db, Split(cc, '|')[0]);
      r.code == 200 && r.body.CardBody? &&
      r.body.cc == cc && r.body.gateway == Gateway && r.body.dev == Dev &&
      (r.body.status == Passed <==> exists i :: OccursAt(v.status, "FALSE", i)) &&
      (r.body.status == Passed || r.body.status == Rejected) &&
      r.body.response == (if r.body.status == Passed then PassedEmoji else RejectedEmoji) + " " + v.response
  {
    SuccessReply(cc, db);
    LookupOfPrefix(db, Split(cc, '|')[0]);
  }

  /** A payload without any `|` is a single field and is rejected. */
  lemma NoSeparatorRejected(cc: string, db: Database)
    requires cc != "" && '|' !in cc
    ensures HandleRequest(WebKey, cc, db) == BadFormat
  {
    SplitCount(cc, '|');
    CountAbsent(cc, '|');
  }

  /** A payload is accepted exactly when it has three separators; the empty
      payload has none and is refused. */
  lemma AcceptedIffThreeSeparators(cc: string, db: Database)
    ensures HandleRequest(WebKey, cc, db).code == 200 <==> Count(cc, '|') == 3
  {
    SplitCount(cc, '|');
  }

  /** A status with "FALSE" anywhere in it is Passed, e.g. "3D NOT FALSE". */
  lemma FalseAnywherePasses(before: string, after: string, message: string)
    ensures Classify(LookupResult(before + "FALSE" + after, message)).status == Passed
  {
    var status := before + "FALSE" + after;
    assert status[|before|..|before| + 5] == "FALSE";
    assert OccursAt(status, "FALSE", |before|);
  }

  /** Every fallback of the lookup has "FALSE" in its status, so it is
      classified as Passed. */
  lemma FallbacksPass()
    ensures Classify(DatabaseNotFound).status == Passed
    ensures Classify(BinNotFound).status == Passed
    ensures Classify(LookupError).status == Passed
  {
    FalseAnywherePasses("3D ", "", "BIN Database Not Found");
    assert "3D " + "FALSE" + "" == "3D FALSE";
  }

  /** With no database file, every well-formed request passes with the
      "BIN Database Not Found" message. */
  lemma MissingDatabasePasses(cc: string)
    requires WellFormed(cc)
    ensures var r := HandleRequest(WebKey, cc, Missing);
      r.code == 200 && r.body.status == Passed && r.body.response[2..] == "BIN Database Not Found"
  {
    SuccessReply(cc, Missing);
    FallbacksPass();
  }

  /** When no line of the file qualifies for the card's BIN the request still
      passes, with the "not found" or the "lookup error" message. */
  lemma NoRecordPasses(cc: string, lines: seq<string>, readFails: bool)
    requires WellFormed(cc)
    requires forall j :: 0 <= j < |lines| ==> !Qualifies(lines[j], BinPrefix(Split(cc, '|')[0]))
    ensures var r := HandleRequest(WebKey, cc, Present(lines, readFails));
      r.code == 200 && r.body.status == Passed &&
      r.body.response[2..] == if readFails then "Lookup Error" else "BIN Not Found in Database"
  {
    var num := Split(cc, '|')[0];
    SuccessReply(cc, Present(lines, readFails));
    LookupOfPrefix(Present(lines, readFails), num);
    LookupNoMatch(lines, readFails, num);
    FallbacksPass();
  }

  /** A request whose card number's BIN has a record on the file's first
      line reports that record's status and message, classified; the rest of
      the file does not matter. For example, for the card
      `4532123456789012|12|2025|123` and a first line
      `453212|3D FALSE|Low Risk BIN|Visa` the reply is Passed, and for a first
      line `453212|3D TRUE|High Risk BIN|Visa` it is Rejected. */
  lemma FirstRecordDecidesReply(num: string, mm: string, yy: string, cvv: string,
                                status: string, message: string, issuer: string,
                                rest: seq<string>, readFails: bool)
    requires '|' !in num && '|' !in mm && '|' !in yy && '|' !in cvv
    requires '|' !in status && '|' !in message && '|' !in issuer
    requires num != [] && !IsSpace(num[0]) && issuer != [] && !IsSpace(issuer[|issuer| - 1])
    ensures var cc := num + "|" + mm + "|" + yy + "|" + cvv;
      var v := Classify(LookupResult(status, message));
      HandleRequest(WebKey, cc, Present([RecordLine(Head(num, 6), status, message, issuer)] + rest, readFails))
        == Reply(200, CardBody(cc, Gateway, v.status, v.response, Dev))
  {
    var cc := num + "|" + mm + "|" + yy + "|" + cvv;
    var bin := Head(num, 6);
    var lines := [RecordLine(bin, status, message, issuer)] + rest;
    SplitOfFour(num, mm, yy, cvv);
    assert '|' !in bin by {
      forall k | 0 <= k < |bin| ensures bin[k] != '|' { assert bin[k] == num[k]; }
    }
    RecordLineQualifies(bin, status, message, issuer);
    ScanFirstMatch(lines, bin, 0);
    HeadIdempotent(num, 6);
    SuccessReply(cc, Present(lines, readFails));
  }

  /** A payload with three fields is a format error. */
  lemma ThreeFieldsRejected(a: string, b: string, c: string, db: Database)
    requires '|' !in a && '|' !in b && '|' !in c
    ensures HandleRequest(WebKey, a + "|" + b + "|" + c, db) == BadFormat
  {
    SplitOfThree(a, b, c);
  }
}
