/** The pure parts of ticket issuance: the storage path of the ticket, the
    public URL recorded for it, and the text lines printed on it. */
module Ticket {
  import opened Common
  import opened Records
  import opened Numerals

  /** The storage bucket the ticket is uploaded to (`storage.from_("tickets")`). */
  const Bucket: string := "tickets"

  /** `f"tickets/{email}_ticket.pdf"`: the key of the ticket inside the bucket. */
  function TicketPath(email: Option<string>): string {
    "tickets/" + Show(email) + "_ticket.pdf"
  }

  /** A ticket path is the email, as the f-string shows it, inside the
      `tickets/` folder with the `_ticket.pdf` suffix. */
  lemma TicketPathParts(email: Option<string>)
    ensures var path := TicketPath(email);
            && |path| == |Show(email)| + 19
            && path[..8] == "tickets/" && path[|path| - 11..] == "_ticket.pdf"
            && path[8..|path| - 11] == Show(email)
  {
  }

  /** Different emails get different ticket paths, so one participant's
      upload never lands on another's. */
  lemma TicketPathInjective(a: string, b: string)
    requires TicketPath(Some(a)) == TicketPath(Some(b))
    ensures a == b
  {
    var p := TicketPath(Some(a));
    assert a == p[8..|p| - 11];
    assert b == p[8..|p| - 11];
  }

  /** `SUPABASE_STORAGE_URL`, from the configured `SUPABASE_URL`. */
  function StorageUrl(supabaseUrl: string): string {
    supabaseUrl + "/storage/v1/object/public"
  }

  /** The public URL of object `key` in `bucket`. */
  function PublicUrl(supabaseUrl: string, bucket: string, key: string): string {
    StorageUrl(supabaseUrl) + "/" + bucket + "/" + key
  }

  /** Splits a text at its first '/'. */
  function SplitAtSlash(s: string): Option<(string, string)> {
    if s == [] then None
    else if s[0] == '/' then Some(([], s[1..]))
    else match SplitAtSlash(s[1..])
      case None => None
      case Some(parts) => Some(([s[0]] + parts.0, parts.1))
  }

  lemma {:induction false} SplitJoined(front: string, back: string)
    requires '/' !in front
    ensures SplitAtSlash(front + "/" + back) == Some((front, back))
  {
    if front != [] {
      assert (front + "/" + back)[1..] == front[1..] + "/" + back;
      SplitJoined(front[1..], back);
      assert [front[0]] + front[1..] == front;
    } else {
      assert front + "/" + back == "/" + back;
    }
  }

  /** The (bucket, key) that a public URL names; None for any other URL. */
  function ObjectAt(supabaseUrl: string, url: string): Option<(string, string)> {
    var prefix := StorageUrl(supabaseUrl) + "/";
    if |prefix| <= |url| && url[..|prefix|] == prefix then SplitAtSlash(url[|prefix|..]) else None
  }

  /** Reading a public URL back gives the object it was made for. */
  lemma PublicUrlNamesObject(supabaseUrl: string, bucket: string, key: string)
    requires '/' !in bucket
    ensures ObjectAt(supabaseUrl, PublicUrl(supabaseUrl, bucket, key)) == Some((bucket, key))
  {
    var prefix := StorageUrl(supabaseUrl) + "/";
    var url := PublicUrl(supabaseUrl, bucket, key);
    assert url == prefix + (bucket + "/" + key);
    assert url[..|prefix|] == prefix;
    assert url[|prefix|..] == bucket + "/" + key;
    SplitJoined(bucket, key);
  }

  /** `f"{SUPABASE_STORAGE_URL}/tickets/{email}_ticket.pdf"`, the `qr_path`
      the handler records, as written. */
  function RecordedUrlAsWritten(supabaseUrl: string, email: Option<string>): (url: string)
    ensures ObjectAt(supabaseUrl, url) == Some((Bucket, Show(email) + "_ticket.pdf"))
  {
    assert StorageUrl(supabaseUrl) + "/tickets/" + Show(email) + "_ticket.pdf"
        == PublicUrl(supabaseUrl, Bucket, Show(email) + "_ticket.pdf");
    PublicUrlNamesObject(supabaseUrl, Bucket, Show(email) + "_ticket.pdf");
    StorageUrl(supabaseUrl) + "/tickets/" + Show(email) + "_ticket.pdf"
  }

  /** The URL as written names the key `{email}_ticket.pdf`, not the key
      `tickets/{email}_ticket.pdf` the ticket was uploaded under. */
  lemma RecordedUrlMissesUpload(supabaseUrl: string, email: Option<string>)
    ensures ObjectAt(supabaseUrl, RecordedUrlAsWritten(supabaseUrl, email))
            == Some((Bucket, Show(email) + "_ticket.pdf"))
    ensures ObjectAt(supabaseUrl, RecordedUrlAsWritten(supabaseUrl, email))
            != Some((Bucket, TicketPath(email)))
  {
    assert |TicketPath(email)| == |Show(email) + "_ticket.pdf"| + 8;
  }

  /** The public URL of the uploaded ticket: what `qr_path` is meant to hold. */
  function TicketUrl(supabaseUrl: string, email: Option<string>): (url: string)
    ensures ObjectAt(supabaseUrl, url) == Some((Bucket, TicketPath(email)))
  {
    PublicUrlNamesObject(supabaseUrl, Bucket, TicketPath(email));
    PublicUrl(supabaseUrl, Bucket, TicketPath(email))
  }

  /** The URL as written is not the URL of the uploaded ticket. */
  lemma RecordedUrlIsNotTicketUrl(supabaseUrl: string, email: Option<string>)
    ensures RecordedUrlAsWritten(supabaseUrl, email) != TicketUrl(supabaseUrl, email)
  {
    RecordedUrlMissesUpload(supabaseUrl, email);
  }

  /** `sep.join(parts)`. */
  function Join(sep: string, parts: seq<string>): string
    decreases |parts|
  {
    if |parts| == 0 then ""
    else if |parts| == 1 then parts[0]
    else parts[0] + sep + Join(sep, parts[1..])
  }

  /** Appending a part adds the separator and the part at the end. */
  lemma {:induction false} JoinSnoc(sep: string, parts: seq<string>, last: string)
    requires parts != []
    ensures Join(sep, parts + [last]) == Join(sep, parts) + sep + last
    decreases |parts|
  {
    if |parts| > 1 {
      assert (parts + [last])[1..] == parts[1..] + [last];
      JoinSnoc(sep, parts[1..], last);
    } else {
      assert parts + [last] == [parts[0], last];
    }
  }

  /** A ", "-join is empty exactly when there is no part or one empty part. */
  lemma JoinEmpty(parts: seq<string>)
    ensures Join(", ", parts) == "" <==> parts == [] || parts == [""]
  {
    if |parts| > 1 {
      assert |Join(", ", parts)| >= 2;
    } else if |parts| == 1 {
      assert parts == [parts[0]];
    }
  }

  /** `[e['name'] for e in selected_events]`. */
  function EventNames(events: seq<Event>): (names: seq<string>)
    ensures |names| == |events|
  {
    seq(|events|, i requires 0 <= i < |events| => events[i].name)
  }

  /** `f"Events: {', '.join(events_list) or 'N/A'}"`. */
  function EventsLine(events: seq<Event>): (line: string)
    ensures |line| > 8 && line[..8] == "Events: "
  {
    var joined := Join(", ", EventNames(events));
    "Events: " + (if joined == "" then "N/A" else joined)
  }

  /** The events line falls back to N/A exactly when the joined names are
      empty (no event, or a single event with an empty name), and is the
      joined names otherwise. */
  lemma EventsLineCases(events: seq<Event>)
    ensures events == [] ==> EventsLine(events) == "Events: N/A"
    ensures |events| == 1 ==> EventsLine(events) == "Events: " + (if events[0].name == "" then "N/A" else events[0].name)
    ensures !(events == [] || EventNames(events) == [""]) ==>
            EventsLine(events) == "Events: " + Join(", ", EventNames(events))
  {
    JoinEmpty(EventNames(events));
  }

  /** Adding an event appends ", " and its name to a non-empty events line. */
  lemma EventsLineSnoc(events: seq<Event>, e: Event)
    requires events != [] && EventNames(events) != [""]
    ensures EventsLine(events + [e]) == EventsLine(events) + ", " + e.name
  {
    assert EventNames(events + [e]) == EventNames(events) + [e.name];
    JoinSnoc(", ", EventNames(events), e.name);
    JoinEmpty(EventNames(events));
    JoinEmpty(EventNames(events + [e]));
  }

  /** The labels of the participant's text fields on the ticket, in the
      order of those fields in TextFields. */
  const TextLabels: seq<string> := ["Name: ", "Email Id: ", "Phone Number: ", "College Name: ",
                                    "Team Name: ", "Team Code: ", "Food Preference: "]

  function TextFields(p: Participant): (fields: seq<Option<string>>)
    ensures |fields| == |TextLabels|
  {
    [p.row.name, p.row.email, p.row.phone, p.row.college, p.row.teamName, p.row.teamCode, p.row.food]
  }

  /** `f"{label}{participant.get(key, 'N/A')}"` as written: the row was read
      with `select("*")`, so every key is present and the N/A default never
      applies; a null column prints as "None". */
  function TextLinesAsWritten(p: Participant): (lines: seq<string>)
    ensures |lines| == |TextLabels|
    ensures forall i :: 0 <= i < |lines| && TextFields(p)[i].Some? ==>
              lines[i] == TextLabels[i] + TextFields(p)[i].value
    ensures forall i :: 0 <= i < |lines| && TextFields(p)[i] == None ==> lines[i] == TextLabels[i] + "None"
  {
    seq(|TextLabels|, i requires 0 <= i < |TextLabels| => TextLabels[i] + Show(TextFields(p)[i]))
  }

  /** The start of the amount line, up to and including the rupee sign. */
  const AmountLabel: string := "Amount Paid: \U{20B9}"

  /** `f"Amount Paid: ₹{participant.get('amount', 'N/A')}"` as written: a
      null amount prints as "None". */
  function AmountLineAsWritten(p: Participant): (line: string)
    ensures |line| > |AmountLabel| && line[..|AmountLabel|] == AmountLabel
    ensures p.row.amount == None ==> line[|AmountLabel|..] == "None"
    ensures p.row.amount.Some? && p.row.amount.value >= 0 ==>
              AllDigits(line[|AmountLabel|..]) && DecimalValue(line[|AmountLabel|..]) == p.row.amount.value
  {
    AmountLabel + match p.row.amount
      case Some(a) => IntText(a)
      case None => "None"
  }

  /** A participant who registered without a team gets "None" for the team
      name and the team code on the ticket, and "None" for a missing amount. */
  lemma SoloTicketShowsNone(p: Participant)
    requires p.row.teamName == None && p.row.teamCode == None
    ensures TextLinesAsWritten(p)[4] == "Team Name: None"
    ensures TextLinesAsWritten(p)[5] == "Team Code: None"
    ensures p.row.amount == None ==> AmountLineAsWritten(p) == AmountLabel + "None"
  {
  }

  /** The value of a field with N/A for a missing value, as intended. */
  function ShowOrNA(v: Option<string>): string {
    match v
    case Some(s) => s
    case None => "N/A"
  }

  lemma LabelledValue(head: string, a: string, b: string)
    requires head + a == head + b
    ensures a == b
  {
    assert a == (head + a)[|head|..];
    assert b == (head + b)[|head|..];
  }

  /** The ticket's text lines with missing values shown as N/A: a line reads
      N/A when its field is missing, and shows "None" only when the
      participant entered that text. */
  function TextLines(p: Participant): (lines: seq<string>)
    ensures |lines| == |TextLabels|
    ensures forall i :: 0 <= i < |lines| && TextFields(p)[i] == None ==> lines[i] == TextLabels[i] + "N/A"
    ensures forall i :: 0 <= i < |lines| && TextFields(p)[i].Some? ==>
              lines[i] == TextLabels[i] + TextFields(p)[i].value
    ensures forall i :: 0 <= i < |lines| && lines[i] == TextLabels[i] + "None" ==>
              TextFields(p)[i] == Some("None")
  {
    var lines := seq(|TextLabels|, i requires 0 <= i < |TextLabels| => TextLabels[i] + ShowOrNA(TextFields(p)[i]));
    assert forall i :: 0 <= i < |lines| && lines[i] == TextLabels[i] + "None" ==>
              TextFields(p)[i] == Some("None") by {
      forall i | 0 <= i < |lines| && lines[i] == TextLabels[i] + "None"
        ensures TextFields(p)[i] == Some("None")
      {
        LabelledValue(TextLabels[i], ShowOrNA(TextFields(p)[i]), "None");
      }
    }
    lines
  }

  /** The amount line with a missing amount shown as N/A: it agrees with the
      line as written whenever there is an amount, and differs from it only
      where the line as written prints "None". */
  function AmountLine(p: Participant): (line: string)
    ensures p.row.amount.Some? ==> line == AmountLineAsWritten(p)
    ensures p.row.amount == None ==> line == AmountLabel + "N/A" && AmountLineAsWritten(p) == AmountLabel + "None"
    ensures line != AmountLineAsWritten(p) <==> p.row.amount == None
  {
    AmountLabel + match p.row.amount
      case Some(a) => IntText(a)
      case None => "N/A"
  }
}
