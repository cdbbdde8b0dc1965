/** The daily reminder job: phone numbers normalised to the Swedish
    international form, one text message per booking of the day that has a
    number, and the counters and result message of a run. */
module Reminders {
  import opened Wrappers
  import opened Text

  /** A field value as the job's runtime sees it: a string, null, or any
      other value (held as the text `str()` renders it as). */
  datatype PyValue = PyStr(s: string) | PyNone | PyOther(text: string)

  /** `str(v)`. */
  function StrOf(v: PyValue): string {
    match v
    case PyStr(s) => s
    case PyNone => "None"
    case PyOther(t) => t
  }

  /** The fields of a booking document the job reads; the query has already
      selected the documents of the day whose reminder is not sent yet.
      `licensePlate` is missing when the document has no such field. */
  datatype BookingDoc = BookingDoc(phoneNumber: PyValue, licensePlate: Option<PyValue>)

  /** What happens to the message of one booking: it is delivered and the
      document marked, the send fails, or it goes out but marking the
      document fails. */
  datatype Delivery = Delivered | SendFailed(reason: string) | MarkFailed(reason: string)

  /** One request to the messaging service. */
  datatype Sms = Sms(body: string, from: string, to: string)

  /** The counters of a run: messages counted as sent, error lines, the
      send requests in order, and the positions of the documents marked as
      reminded. */
  datatype Tally = Tally(sent: nat, errors: seq<string>, requests: seq<Sms>, marked: seq<nat>)

  const CredentialsMessage := "Error: Twilio credentials not configured."
  const SenderMessage := "Error: Twilio phone number not configured."
  const QueryFailedMessage := "Error: Failed to query Firestore."
  const SwedenPrefix := "+46"
  const MissingPlate := "N/A"

  /** The number with spaces and then hyphens removed. */
  function CleanNumber(s: string): (r: string)
    ensures ' ' !in r && '-' !in r
  {
    RemoveChar(RemoveChar(s, ' '), '-')
  }

  /** `format_phone_number`: a national number (leading 0) gets the country
      code +46 instead of the 0; anything else is returned cleaned; a value
      that is not a string gives the empty string. */
  function FormatPhoneNumber(v: PyValue): (r: string)
    ensures ' ' !in r && '-' !in r
    ensures !v.PyStr? ==> r == ""
    ensures r == [] || r[0] != '0'
  {
    match v
    case PyStr(s) =>
      var clean := CleanNumber(s);
      if |clean| > 0 && clean[0] == '0' then SwedenPrefix + clean[1..] else clean
    case _ => ""
  }

  /** The decimal digits of `s`, in their order. */
  function DigitsOf(s: string): (r: string)
    ensures AllDigits(r) && |r| <= |s|
  {
    if s == [] then [] else (if IsDigit(s[0]) then [s[0]] else []) + DigitsOf(s[1..])
  }

  /** Cleaning works piece by piece. */
  lemma CleanNumberAppend(a: string, b: string)
    ensures CleanNumber(a + b) == CleanNumber(a) + CleanNumber(b)
  {
    RemoveCharAppend(a, b, ' ');
    RemoveCharAppend(RemoveChar(a, ' '), RemoveChar(b, ' '), '-');
  }

  /** A number written with digits, spaces and hyphens cleans to its digits. */
  lemma {:induction false} CleanIsDigits(s: string)
    requires forall i :: 0 <= i < |s| ==> IsDigit(s[i]) || s[i] == ' ' || s[i] == '-'
    ensures CleanNumber(s) == DigitsOf(s)
  {
    if s != [] {
      assert s == [s[0]] + s[1..];
      CleanNumberAppend([s[0]], s[1..]);
      RemoveCharSingle(s[0], ' ');
      RemoveCharSingle(s[0], '-');
      CleanIsDigits(s[1..]);
    }
  }

  /** A number written with digits, spaces and hyphens whose first digit is 0
      becomes +46 followed by exactly its remaining digits, in order; any
      other such number becomes just its digits. */
  lemma FormatSwedishNumber(s: string)
    requires forall i :: 0 <= i < |s| ==> IsDigit(s[i]) || s[i] == ' ' || s[i] == '-'
    ensures var d := DigitsOf(s);
      d != [] && d[0] == '0' ==> FormatPhoneNumber(PyStr(s)) == SwedenPrefix + d[1..]
    ensures var d := DigitsOf(s);
      !(d != [] && d[0] == '0') ==> FormatPhoneNumber(PyStr(s)) == d
  {
    CleanIsDigits(s);
  }

  lemma {:induction false} RemoveAbsent(s: string, c: char)
    requires c !in s
    ensures RemoveChar(s, c) == s
  {
    if s != [] {
      assert s[0] != c;
      assert c !in s[1..];
      RemoveAbsent(s[1..], c);
      assert s == [s[0]] + s[1..];
    }
  }

  /** Formatting a formatted number changes nothing. */
  lemma FormatIdempotent(v: PyValue)
    ensures FormatPhoneNumber(PyStr(FormatPhoneNumber(v))) == FormatPhoneNumber(v)
  {
    var r := FormatPhoneNumber(v);
    RemoveAbsent(r, ' ');
    RemoveAbsent(r, '-');
    assert CleanNumber(r) == r;
    if v.PyStr? {
      var clean := CleanNumber(v.s);
      if |clean| > 0 && clean[0] == '0' {
        assert r[0] == '+';
      }
    }
  }

  const ReminderIntro := "Påminnelse: Du har en parkering bokad idag ("
  const FailureIntro := "Failed to send SMS to "

  /** The text of the reminder for a booking of car `plate`: the plate sits in
      parentheses after a fixed sentence. */
  function ReminderBody(plate: string): (m: string)
    ensures |m| == |ReminderIntro| + |plate| + 2
    ensures m[..|ReminderIntro|] == ReminderIntro
    ensures m[|ReminderIntro|..|m| - 2] == plate && m[|m| - 2..] == ")."
  {
    var m := ReminderIntro + plate + ").";
    assert m[..|ReminderIntro|] == ReminderIntro;
    assert m[|ReminderIntro|..|m| - 2] == plate;
    m
  }

  /** Different plates give different reminders. */
  lemma ReminderBodyInjective(a: string, b: string)
    requires ReminderBody(a) == ReminderBody(b)
    ensures a == b
  {
    var m := ReminderBody(a);
    assert a == m[|ReminderIntro|..|m| - 2];
  }

  /** `booking.get("licensePlate", "N/A")` as the message shows it. */
  function PlateText(d: BookingDoc): (t: string)
    ensures d.licensePlate.None? ==> t == MissingPlate
    ensures d.licensePlate == Some(PyNone) ==> t == "None"
    ensures forall p :: d.licensePlate == Some(PyStr(p)) ==> t == p
  {
    match d.licensePlate
    case None => MissingPlate
    case Some(v) => StrOf(v)
  }

  /** The error line for a failed send: the number, then the reason. */
  function FailureMessage(phone: string, reason: string): (m: string)
    ensures |m| == |FailureIntro| + |phone| + 2 + |reason|
    ensures m[..|FailureIntro|] == FailureIntro
    ensures m[|FailureIntro|..|FailureIntro| + |phone|] == phone
    ensures m[|FailureIntro| + |phone|..|FailureIntro| + |phone| + 2] == ": "
    ensures m[|FailureIntro| + |phone| + 2..] == reason
  {
    var m := FailureIntro + phone + ": " + reason;
    var k := |FailureIntro| + |phone|;
    assert m[..|FailureIntro|] == FailureIntro;
    assert m[|FailureIntro|..k] == phone;
    assert m[k..k + 2] == ": ";
    assert m[k + 2..] == reason;
    m
  }

  /** Whether the job sends a message for `d`: its number formats to a
      non-empty string. */
  predicate Attempted(d: BookingDoc) {
    FormatPhoneNumber(d.phoneNumber) != ""
  }

  /** The tally after document `i`, `d`, with delivery `o`: at most one new
      request, which is counted as sent or produces one error line, never
      both; a count always comes with a mark. */
  function Step(t: Tally, i: nat, d: BookingDoc, o: Delivery, from: string): (u: Tally)
    ensures |t.requests| <= |u.requests| <= |t.requests| + 1
    ensures u.sent + |u.errors| + |t.requests| == t.sent + |t.errors| + |u.requests|
    ensures u.sent + |t.marked| == t.sent + |u.marked|
  {
    var phone := FormatPhoneNumber(d.phoneNumber);
    if phone == "" then t
    else
      var requests := t.requests + [Sms(ReminderBody(PlateText(d)), from, phone)];
      match o
      case Delivered => Tally(t.sent + 1, t.errors, requests, t.marked + [i])
      case SendFailed(e) => Tally(t.sent, t.errors + [FailureMessage(phone, e)], requests, t.marked)
      case MarkFailed(e) => Tally(t.sent, t.errors + [FailureMessage(phone, e)], requests, t.marked)
  }

  /** What one step adds to each counter. */
  lemma StepAdds(t: Tally, i: nat, d: BookingDoc, o: Delivery, from: string)
    ensures var u := Step(t, i, d, o, from);
      && u.marked == t.marked + (if Attempted(d) && o == Delivered then [i] else [])
      && u.requests == t.requests + (if Attempted(d) then [Sms(ReminderBody(PlateText(d)), from, FormatPhoneNumber(d.phoneNumber))] else [])
      && u.sent == t.sent + (if Attempted(d) && o == Delivered then 1 else 0)
      && |u.errors| == |t.errors| + (if Attempted(d) && o != Delivered then 1 else 0)
  {
  }

  /** Whether `r` is the message for document `d` from `from`. */
  predicate RequestFor(r: Sms, d: BookingDoc, from: string) {
    Attempted(d) && r == Sms(ReminderBody(PlateText(d)), from, FormatPhoneNumber(d.phoneNumber))
  }

  /** Every request of `rs` is the message for one of the documents `docs`. */
  ghost predicate FromDocs(rs: seq<Sms>, docs: seq<BookingDoc>, from: string) {
    forall k :: 0 <= k < |rs| ==> exists i :: 0 <= i < |docs| && RequestFor(rs[k], docs[i], from)
  }

  /** The number of documents with a number to send to. */
  function AttemptCount(docs: seq<BookingDoc>): (n: nat)
    ensures n <= |docs|
  {
    if docs == [] then 0
    else AttemptCount(docs[..|docs| - 1]) + (if Attempted(docs[|docs| - 1]) then 1 else 0)
  }

  /** The tally of the documents `docs` with deliveries `outcomes`, in order.
      Every document with a number costs one request, which is counted as
      sent or produces one error line, never both; the count is the number of
      documents marked. */
  function TallyOf(docs: seq<BookingDoc>, outcomes: seq<Delivery>, from: string): (t: Tally)
    requires |outcomes| == |docs|
    ensures |t.requests| == AttemptCount(docs)
    ensures t.sent + |t.errors| == |t.requests|
    ensures t.sent == |t.marked|
  {
    if docs == [] then Tally(0, [], [], [])
    else
      var n := |docs| - 1;
      StepAdds(TallyOf(docs[..n], outcomes[..n], from), n, docs[n], outcomes[n], from);
      Step(TallyOf(docs[..n], outcomes[..n], from), n, docs[n], outcomes[n], from)
  }

  /** The marks are document indexes, below `bound`, in increasing order. */
  ghost predicate InOrderBelow(m: seq<nat>, bound: nat) {
    && (forall k :: 0 <= k < |m| ==> m[k] < bound)
    && (forall k, l :: 0 <= k < l < |m| ==> m[k] < m[l])
  }

  /** The marks are indexes of `docs`, in document order, each at most once. */
  lemma {:induction false} MarkedInOrder(docs: seq<BookingDoc>, outcomes: seq<Delivery>, from: string)
    requires |outcomes| == |docs|
    ensures InOrderBelow(TallyOf(docs, outcomes, from).marked, |docs|)
  {
    if docs != [] {
      var n := |docs| - 1;
      var t0 := TallyOf(docs[..n], outcomes[..n], from);
      MarkedInOrder(docs[..n], outcomes[..n], from);
      StepAdds(t0, n, docs[n], outcomes[n], from);
    }
  }

  /** Appending mark `n`, or nothing, to marks below `n`. */
  lemma MarkStep(m0: seq<nat>, n: nat, c: bool, m: seq<nat>)
    requires forall k :: 0 <= k < |m0| ==> m0[k] < n
    requires m == m0 + (if c then [n] else [])
    ensures forall i :: 0 <= i < n ==> (i in m <==> i in m0)
    ensures n in m <==> c
  {
    assert n !in m0;
  }

  /** The indexes of `flags` that hold, in increasing order. */
  ghost function Positions(flags: seq<bool>): seq<nat> {
    if flags == [] then []
    else Positions(flags[..|flags| - 1]) + (if flags[|flags| - 1] then [|flags| - 1] else [])
  }

  lemma {:induction false} PositionsExactly(flags: seq<bool>)
    ensures forall k :: 0 <= k < |Positions(flags)| ==> Positions(flags)[k] < |flags|
    ensures forall i :: 0 <= i < |flags| ==> (i in Positions(flags) <==> flags[i])
  {
    if flags != [] {
      var n := |flags| - 1;
      var f0 := flags[..n];
      PositionsExactly(f0);
      MarkStep(Positions(f0), n, flags[n], Positions(flags));
      forall i | 0 <= i < n
        ensures f0[i] == flags[i]
      {
      }
    }
  }

  /** For each document, whether it is to be marked as reminded. */
  ghost function Reminded(docs: seq<BookingDoc>, outcomes: seq<Delivery>): (f: seq<bool>)
    requires |outcomes| == |docs|
    ensures |f| == |docs|
  {
    seq(|docs|, i requires 0 <= i < |docs| => Attempted(docs[i]) && outcomes[i] == Delivered)
  }

  lemma RemindedPrefix(docs: seq<BookingDoc>, outcomes: seq<Delivery>, n: nat)
    requires |outcomes| == |docs| && n <= |docs|
    ensures Reminded(docs, outcomes)[..n] == Reminded(docs[..n], outcomes[..n])
  {
    var f, g := Reminded(docs, outcomes)[..n], Reminded(docs[..n], outcomes[..n]);
    forall i | 0 <= i < n
      ensures f[i] == g[i]
    {
      assert docs[..n][i] == docs[i] && outcomes[..n][i] == outcomes[i];
    }
  }

  lemma {:induction false} MarkedPositions(docs: seq<BookingDoc>, outcomes: seq<Delivery>, from: string)
    requires |outcomes| == |docs|
    ensures TallyOf(docs, outcomes, from).marked == Positions(Reminded(docs, outcomes))
  {
    if docs != [] {
      var n := |docs| - 1;
      var p, q := docs[..n], outcomes[..n];
      var f := Reminded(docs, outcomes);
      MarkedPositions(p, q, from);
      RemindedPrefix(docs, outcomes, n);
      StepAdds(TallyOf(p, q, from), n, docs[n], outcomes[n], from);
      assert Positions(f) == Positions(Reminded(p, q)) + (if f[n] then [n] else []);
    }
  }

  /** A document is marked as reminded exactly when it has a number and its
      message was delivered and recorded. */
  lemma MarkedExactly(docs: seq<BookingDoc>, outcomes: seq<Delivery>, from: string)
    requires |outcomes| == |docs|
    ensures var m := TallyOf(docs, outcomes, from).marked;
      forall i :: 0 <= i < |docs| ==> (i in m <==> Attempted(docs[i]) && outcomes[i] == Delivered)
  {
    MarkedPositions(docs, outcomes, from);
    PositionsExactly(Reminded(docs, outcomes));
  }

  /** Each message goes to the formatted number of a document that has one,
      from the sender number, with that document's car in the text. */
  lemma {:induction false} RequestsFromDocs(docs: seq<BookingDoc>, outcomes: seq<Delivery>, from: string)
    requires |outcomes| == |docs|
    ensures FromDocs(TallyOf(docs, outcomes, from).requests, docs, from)
  {
    if docs != [] {
      var n := |docs| - 1;
      var p := docs[..n];
      RequestsFromDocs(p, outcomes[..n], from);
      var rs0 := TallyOf(p, outcomes[..n], from).requests;
      var rs := TallyOf(docs, outcomes, from).requests;
      StepAdds(TallyOf(p, outcomes[..n], from), n, docs[n], outcomes[n], from);
      forall k | 0 <= k < |rs|
        ensures exists i :: 0 <= i < |docs| && RequestFor(rs[k], docs[i], from)
      {
        if k < |rs0| {
          assert rs[k] == rs0[k];
          var i :| 0 <= i < |p| && RequestFor(rs0[k], p[i], from);
          assert p[i] == docs[i];
        } else {
          assert RequestFor(rs[k], docs[n], from);
        }
      }
    }
  }

  /** When every message is delivered there are no errors and every document
      with a number is counted. */
  lemma {:induction false} AllDelivered(docs: seq<BookingDoc>, outcomes: seq<Delivery>, from: string)
    requires |outcomes| == |docs|
    requires forall i :: 0 <= i < |outcomes| ==> outcomes[i] == Delivered
    ensures TallyOf(docs, outcomes, from).errors == []
    ensures TallyOf(docs, outcomes, from).sent == AttemptCount(docs)
  {
    if docs != [] {
      var n := |docs| - 1;
      var p, q := docs[..n], outcomes[..n];
      assert forall i :: 0 <= i < |q| ==> q[i] == Delivered by {
        forall i | 0 <= i < |q| ensures q[i] == Delivered {
          assert q[i] == outcomes[i];
        }
      }
      AllDelivered(p, q, from);
      assert outcomes[n] == Delivered;
    }
  }

  /** The result of a run that got through its query: it reports errors
      exactly when there were some, and then carries their number; otherwise
      it carries the count of messages sent. */
  function ResultMessage(sent: nat, errors: seq<string>): (m: string)
    ensures |m| >= 15 && m[..15] == "Completed with " <==> errors != []
    ensures errors != [] ==>
      |m| >= 15 + |NatToString(|errors|)| && m[15..15 + |NatToString(|errors|)|] == NatToString(|errors|)
    ensures errors == [] ==>
      |m| >= 18 + |NatToString(sent)| && m[..18] == "Successfully sent " && m[18..18 + |NatToString(sent)|] == NatToString(sent)
  {
    if errors != [] then
      var digits := NatToString(|errors|);
      var m := "Completed with " + digits + " errors. Check logs for details.";
      assert m[..15] == "Completed with ";
      assert m[15..15 + |digits|] == digits;
      m
    else
      var digits := NatToString(sent);
      var m := "Successfully sent " + digits + " reminders.";
      assert m[..18] == "Successfully sent ";
      assert m[0] == 'S';
      assert m[18..18 + |digits|] == digits;
      m
  }

  /** The tally of one more document is one more step. */
  lemma TallyStep(docs: seq<BookingDoc>, outcomes: seq<Delivery>, from: string, i: nat)
    requires |outcomes| == |docs| && i < |docs|
    ensures TallyOf(docs[..i + 1], outcomes[..i + 1], from)
      == Step(TallyOf(docs[..i], outcomes[..i], from), i, docs[i], outcomes[i], from)
  {
    assert docs[..i + 1][..i] == docs[..i] && outcomes[..i + 1][..i] == outcomes[..i];
  }

  /** The loop of a run: one step per document the query yielded. */
  method SendReminders(docs: seq<BookingDoc>, outcomes: seq<Delivery>, from: string) returns (t: Tally)
    requires |outcomes| == |docs|
    ensures t == TallyOf(docs, outcomes, from)
  {
    var sent: nat := 0;
    var errors: seq<string> := [];
    var requests: seq<Sms> := [];
    var marked: seq<nat> := [];
    for i := 0 to |docs|
      invariant Tally(sent, errors, requests, marked) == TallyOf(docs[..i], outcomes[..i], from)
    {
      TallyStep(docs, outcomes, from, i);
      sent, errors, requests, marked := Remind(sent, errors, requests, marked, i, docs[i], outcomes[i], from);
    }
    assert docs[..|docs|] == docs && outcomes[..|outcomes|] == outcomes;
    t := Tally(sent, errors, requests, marked);
  }

  /** The body of the send loop for document `i`, `d`, whose delivery is `o`. */
  method Remind(sent: nat, errors: seq<string>, requests: seq<Sms>, marked: seq<nat>,
                i: nat, d: BookingDoc, o: Delivery, from: string)
    returns (sent': nat, errors': seq<string>, requests': seq<Sms>, marked': seq<nat>)
    ensures Tally(sent', errors', requests', marked') == Step(Tally(sent, errors, requests, marked), i, d, o, from)
  {
    sent', errors', requests', marked' := sent, errors, requests, marked;
    var phone := FormatPhoneNumber(d.phoneNumber);
    if phone != "" {
      var body := ReminderBody(PlateText(d));
      requests' := requests' + [Sms(body, from, phone)];
      match o {
        case Delivered =>
          marked' := marked' + [i];
          sent' := sent' + 1;
        case SendFailed(e) =>
          errors' := errors' + [FailureMessage(phone, e)];
        case MarkFailed(e) =>
          errors' := errors' + [FailureMessage(phone, e)];
      }
    }
  }


  /** The job's process: the messaging client is created on the first run
      that finds credentials and kept for later runs. */
  class ReminderJob {
    var clientReady: bool

    constructor ()
      ensures !clientReady
    {
      clientReady := false;
    }

    /** One run: `sid`, `token` and `sender` are the values of the configured
        secrets ("" when unset); `docs` are the documents the query yielded, with the delivery
        of each message in `outcomes`; `streamFails` says that the query
        raised after yielding them. */
    method Execute(sid: string, token: string, sender: string,
                   docs: seq<BookingDoc>, outcomes: seq<Delivery>, streamFails: bool)
      returns (result: string, queried: bool, t: Tally)
      requires |outcomes| == |docs|
      modifies this
      ensures clientReady == (old(clientReady) || (sid != "" && token != ""))
      ensures !clientReady ==> result == CredentialsMessage && !queried && t == Tally(0, [], [], [])
      ensures clientReady && sender == "" ==> result == SenderMessage && !queried && t == Tally(0, [], [], [])
      ensures clientReady && sender != "" ==>
        queried && t == TallyOf(docs, outcomes, sender)
        && result == if streamFails then QueryFailedMessage else ResultMessage(t.sent, t.errors)
    {
      t := Tally(0, [], [], []);
      queried := false;
      if !clientReady {
        if sid != "" && token != "" {
          clientReady := true;
        } else {
          result := CredentialsMessage;
          return;
        }
      }
      if sender == "" {
        result := SenderMessage;
        return;
      }
      queried := true;
      t := SendReminders(docs, outcomes, sender);
      if streamFails {
        result := QueryFailedMessage;
      } else {
        result := ResultMessage(t.sent, t.errors);
      }
    }
  }
}
