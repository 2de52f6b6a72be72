/** The message that v2/emailw prints, and a reader for it after section 5.1.1 of RFC 2046
    (multipart bodies), section 6.8 of RFC 2045 (base64 bodies) and RFC 822 quoted strings. */
module Mime {
  import opened Text
  import opened MimeLines
  import opened MimeReader
  import opened Base64
  import opened Chunks

  const BOUNDARY: string := "boundary-1234567890"
  const DELIM: string := "--" + BOUNDARY
  const CLOSE: string := DELIM + "--"

  /** mimeType is what the extension lookup found; empty when it found nothing. */
  datatype Attachment = Attachment(filename: string, mimeType: string, content: seq<Byte>)

  datatype Message = Message(to: seq<string>, subject: string, body: string, isHTML: bool, attachments: seq<Attachment>)

  function JoinComma(xs: seq<string>): string {
    if xs == [] then "" else if |xs| == 1 then xs[0] else xs[0] + "," + JoinComma(xs[1..])
  }

  function BodyType(m: Message): string { if m.isHTML then "text/html" else "text/plain" }

  function TypeOf(a: Attachment): string {
    if a.mimeType == "" then "application/octet-stream" else a.mimeType
  }

  // -------------------------------------------------------- the printed message

  function HeadFields(from: string, m: Message): seq<Field> {
    [Field("From", from), Field("To", JoinComma(m.to)), Field("Subject", m.subject),
     Field("MIME-Version", "1.0"), Field("Content-Type", "multipart/mixed; boundary=" + BOUNDARY)]
  }

  function BodyFields(m: Message): seq<Field> {
    [Field("Content-Type", BodyType(m) + "; charset=\"utf-8\"")]
  }

  function AttachmentFields(a: Attachment): seq<Field> {
    [Field("Content-Type", TypeOf(a)), Field("Content-Transfer-Encoding", "base64"),
     Field("Content-Disposition", "attachment; filename=\"" + a.filename + "\"")]
  }

  function AttachmentLines(a: Attachment): seq<string> {
    FieldLines(AttachmentFields(a)) + [""] + Chunked(Encode(a.content), 76)
  }

  function AttachmentsText(atts: seq<Attachment>): string {
    if atts == [] then "" else Terminated([DELIM] + AttachmentLines(atts[0])) + AttachmentsText(atts[1..])
  }

  function HeaderText(from: string, m: Message): string {
    Terminated(FieldLines(HeadFields(from, m)) + [""])
  }

  function ContentText(m: Message): string {
    Terminated([DELIM] + FieldLines(BodyFields(m)) + [""]) + m.body + CRLF
    + AttachmentsText(m.attachments) + CLOSE
  }

  // -------------------------------------------------------------- the printer

  method EncodedLines(encoded: string) returns (text: string)
    ensures text == Terminated(Chunked(encoded, 76))
  {
    text := "";
    var i := 0;
    while i < |encoded|
      invariant 0 <= i
      invariant text + Terminated(Chunked(encoded[Min(i, |encoded|)..], 76)) == Terminated(Chunked(encoded, 76))
    {
      var end := i + 76;
      if end > |encoded| {
        end := |encoded|;
      }
      ChunkedFront(encoded, 76, i);
      var line := encoded[i..end];
      TerminatedConcat([line], Chunked(encoded[end..], 76));
      TerminatedOne(line);
      Assoc(text, line + CRLF, Terminated(Chunked(encoded[end..], 76)));
      text := text + (line + CRLF);
      i := i + 76;
    }
    assert text + "" == text;
  }

  method PrintAttachment(a: Attachment) returns (text: string)
    ensures text == Terminated([DELIM] + AttachmentLines(a))
  {
    hide Terminated, FieldLines, Chunked, Encode;
    ghost var fs := AttachmentFields(a);
    ghost var ls := [FieldLine(fs[0]), FieldLine(fs[1]), FieldLine(fs[2])];
    FieldLinesOf3(fs[0], fs[1], fs[2]);
    text := "--" + BOUNDARY + CRLF;
    TerminatedOne(DELIM);
    var mType := a.mimeType;
    if mType == "" {
      mType := "application/octet-stream";
    }
    text := text + ("Content-Type" + ": " + mType + CRLF);
    TerminatedSnoc([DELIM], ls[0]);
    text := text + ("Content-Transfer-Encoding" + ": " + "base64" + CRLF);
    TerminatedSnoc([DELIM] + [ls[0]], ls[1]);
    text := text + ("Content-Disposition" + ": " + ("attachment; filename=\"" + a.filename + "\"") + CRLF);
    TerminatedSnoc([DELIM] + [ls[0]] + [ls[1]], ls[2]);
    text := text + ("" + CRLF);
    TerminatedSnoc([DELIM] + [ls[0]] + [ls[1]] + [ls[2]], "");
    var encoded := EncodedLines(Encode(a.content));
    ghost var head := [DELIM] + [ls[0]] + [ls[1]] + [ls[2]] + [""];
    TerminatedConcat(head, Chunked(Encode(a.content), 76));
    assert [DELIM] + AttachmentLines(a) == head + Chunked(Encode(a.content), 76);
    text := text + encoded;
  }

  lemma FieldLinesOf3(f: Field, g: Field, h: Field)
    ensures FieldLines([f, g, h]) == [FieldLine(f), FieldLine(g), FieldLine(h)]
  {
    FieldLinesSnoc([], f);
    FieldLinesSnoc([f], g);
    FieldLinesSnoc([f, g], h);
    assert [] + [f] == [f] && [f] + [g] == [f, g] && [f, g] + [h] == [f, g, h];
  }

  lemma FieldLinesSnoc(fs: seq<Field>, f: Field)
    ensures FieldLines(fs + [f]) == FieldLines(fs) + [FieldLine(f)]
  {
    if fs == [] {
      assert [f][1..] == [];
    } else {
      assert (fs + [f])[1..] == fs[1..] + [f];
      FieldLinesSnoc(fs[1..], f);
    }
  }

  /** One more header line. */
  method AppendField(header: string, ghost fs: seq<Field>, name: string, value: string) returns (r: string)
    requires header == Terminated(FieldLines(fs))
    ensures r == Terminated(FieldLines(fs + [Field(name, value)]))
  {
    FieldLinesSnoc(fs, Field(name, value));
    TerminatedSnoc(FieldLines(fs), FieldLine(Field(name, value)));
    r := header + (name + ": " + value + CRLF);
  }

  method PrintHeader(from: string, m: Message) returns (header: string)
    ensures header == HeaderText(from, m)
  {
    ghost var fs := HeadFields(from, m);
    header := AppendField("", [], "From", from);
    header := AppendField(header, [] + [fs[0]], "To", JoinComma(m.to));
    header := AppendField(header, [] + [fs[0]] + [fs[1]], "Subject", m.subject);
    header := AppendField(header, [] + [fs[0]] + [fs[1]] + [fs[2]], "MIME-Version", "1.0");
    header := AppendField(
      header, [] + [fs[0]] + [fs[1]] + [fs[2]] + [fs[3]], "Content-Type", "multipart/mixed; boundary=" + BOUNDARY);
    assert [] + [fs[0]] + [fs[1]] + [fs[2]] + [fs[3]] + [fs[4]] == fs;
    TerminatedSnoc(FieldLines(fs), "");
    header := header + ("" + CRLF);
  }

  method PrintBodyPart(m: Message) returns (text: string)
    ensures text == Terminated([DELIM] + FieldLines(BodyFields(m)) + [""]) + m.body + CRLF
  {
    var bodyType := "text/plain";
    if m.isHTML {
      bodyType := "text/html";
    }
    text := "--" + BOUNDARY + CRLF;
    TerminatedOne(DELIM);
    ghost var f := BodyFields(m)[0];
    text := text + ("Content-Type" + ": " + (bodyType + "; charset=\"utf-8\"") + CRLF);
    TerminatedSnoc([DELIM], FieldLine(f));
    text := text + ("" + CRLF);
    TerminatedSnoc([DELIM] + [FieldLine(f)], "");
    FieldLinesSnoc([], f);
    assert [] + [f] == BodyFields(m);
    text := text + m.body + CRLF;
  }

  /** The message construction of Send: header, body part, one part for each attachment. */
  method PrintMessage(from: string, m: Message) returns (header: string, content: string)
    ensures header == HeaderText(from, m)
    ensures content == ContentText(m)
  {
    header := PrintHeader(from, m);
    content := PrintBodyPart(m);
    ghost var front := content;
    var n := 0;
    while n < |m.attachments|
      invariant 0 <= n <= |m.attachments|
      invariant content + AttachmentsText(m.attachments[n..]) == front + AttachmentsText(m.attachments)
    {
      var text := PrintAttachment(m.attachments[n]);
      assert m.attachments[n..][1..] == m.attachments[n + 1..];
      Assoc(content, text, AttachmentsText(m.attachments[n + 1..]));
      content := content + text;
      n := n + 1;
    }
    assert content + "" == content;
    content := content + CLOSE;
  }

  // --------------------------------------------------------------- the reader

  datatype Mail = Mail(
    from: string, to: string, subject: string, bodyType: string, body: string, attachments: seq<Attachment>)

  const FILENAME: string := "attachment; filename=\""
  const MULTIPART: string := "multipart/mixed; boundary="

  function StripPrefix(s: string, prefix: string): Option<string> {
    if HasPrefix(s, prefix) then Some(s[|prefix|..]) else None
  }

  function ReadAttachment(lines: seq<string>): Option<Attachment> {
    match ParseEntity(lines)
    case None => None
    case Some(e) =>
      match (Lookup(e.fields, "Content-Type"), Lookup(e.fields, "Content-Transfer-Encoding"),
             Lookup(e.fields, "Content-Disposition"))
      case (Some(mime), Some(encoding), Some(disposition)) =>
        (match (StripPrefix(disposition, FILENAME), Decode(Flatten(e.body)))
         case (Some(quoted), Some(content)) =>
           (match Unquote(quoted)
            case Some(name) => if encoding == "base64" then Some(Attachment(name, mime, content)) else None
            case None => None)
         case _ => None)
      case _ => None
  }

  function ReadAttachments(parts: seq<seq<string>>): Option<seq<Attachment>> {
    if parts == [] then Some([])
    else
      match (ReadAttachment(parts[0]), ReadAttachments(parts[1..]))
      case (Some(a), Some(rest)) => Some([a] + rest)
      case _ => None
  }

  function ReadParts(head: seq<Field>, parts: seq<seq<string>>): Option<Mail> {
    if parts == [] then None
    else
      match (ParseEntity(parts[0]), ReadAttachments(parts[1..]))
      case (Some(e), Some(atts)) =>
        (match (Lookup(head, "From"), Lookup(head, "To"), Lookup(head, "Subject"), Lookup(e.fields, "Content-Type"))
         case (Some(from), Some(to), Some(subject), Some(t)) =>
           Some(Mail(from, to, subject, t, JoinLines(e.body), atts))
         case _ => None)
      case _ => None
  }

  function ReadMail(text: string): Option<Mail> {
    match ParseEntity(Lines(text))
    case None => None
    case Some(e) =>
      match Lookup(e.fields, "Content-Type")
      case None => None
      case Some(t) =>
        match StripPrefix(t, MULTIPART)
        case None => None
        case Some(boundary) =>
          match BodyParts(e.body, "--" + boundary)
          case None => None
          case Some(parts) => ReadParts(e.fields, parts)
  }

  // ------------------------------------------------------------ the round trip

  /** No line break in what is printed on one line. */
  ghost predicate LineSafe(from: string, m: Message) {
    HeadOneLine(from, m) && TypesOneLine(m.attachments) && NamesOneLine(m.attachments)
  }

  ghost predicate HeadOneLine(from: string, m: Message) {
    OneLine(from) && OneLine(JoinComma(m.to)) && OneLine(m.subject)
  }

  ghost predicate TypesOneLine(atts: seq<Attachment>) { forall i :: 0 <= i < |atts| ==> OneLine(atts[i].mimeType) }

  ghost predicate NamesOneLine(atts: seq<Attachment>) { forall i :: 0 <= i < |atts| ==> OneLine(atts[i].filename) }

  ghost predicate BodySafe(body: string) { NoDelimiter(Lines(body), DELIM) }

  ghost predicate NamesSafe(atts: seq<Attachment>) {
    forall i :: 0 <= i < |atts| ==> QuoteSafe(atts[i].filename)
  }

  function SentAttachments(atts: seq<Attachment>): seq<Attachment> {
    seq(|atts|, i requires 0 <= i < |atts| => atts[i].(mimeType := TypeOf(atts[i])))
  }

  function Sent(from: string, m: Message): Mail {
    Mail(from, JoinComma(m.to), m.subject, BodyType(m) + "; charset=\"utf-8\"", m.body, SentAttachments(m.attachments))
  }

  // Lines of the printed message.

  function BodyPartLines(m: Message): seq<string> { FieldLines(BodyFields(m)) + [""] + Lines(m.body) }

  function AttachmentParts(atts: seq<Attachment>): seq<seq<string>> {
    if atts == [] then [] else [AttachmentLines(atts[0])] + AttachmentParts(atts[1..])
  }

  ghost predicate NameSafe(name: string) { OneLine(name) && name != "" && name[0] != '-' && ':' !in name }

  /** A field that prints on one line of its own and cannot be taken for a delimiter. */
  ghost predicate FieldSafe(f: Field) { NameSafe(f.name) && OneLine(f.value) }

  lemma FieldLineSafe(f: Field)
    requires FieldSafe(f)
    ensures OneLine(FieldLine(f)) && !HasPrefix(FieldLine(f), DELIM)
  {
    assert OneLine(": ");
    OneLineConcat(f.name, ": ");
    OneLineConcat(f.name + ": ", f.value);
    NotDelimiter(FieldLine(f));
  }

  lemma {:induction false} FieldLinesSafe(fs: seq<Field>)
    requires forall i :: 0 <= i < |fs| ==> FieldSafe(fs[i])
    ensures OneLines(FieldLines(fs))
    ensures NoDelimiter(FieldLines(fs), DELIM)
  {
    if fs != [] {
      FieldLinesSafe(fs[1..]);
      FieldLineSafe(fs[0]);
      hide HasPrefix, FieldLine;
    }
  }

  lemma DelimiterOneLine()
    ensures OneLine(DELIM) && OneLine(CLOSE)
  {}

  lemma HeadNames()
    ensures NameSafe("From") && NameSafe("To") && NameSafe("Subject") && NameSafe("MIME-Version")
  {}

  lemma ContentTypeName()
    ensures NameSafe("Content-Type")
  {}

  lemma TransferEncodingName()
    ensures NameSafe("Content-Transfer-Encoding")
  {}

  lemma DispositionName()
    ensures NameSafe("Content-Disposition")
  {}

  lemma ConstantValues()
    ensures OneLine("1.0") && OneLine("base64") && OneLine("\"") && OneLine("text/html") && OneLine("text/plain")
  {}

  lemma LongValues()
    ensures OneLine(MULTIPART) && OneLine(BOUNDARY)
  {}

  lemma AttachmentValues()
    ensures OneLine(FILENAME) && OneLine("application/octet-stream") && OneLine("; charset=\"utf-8\"")
  {}

  lemma HeadFieldsSafe(from: string, m: Message)
    requires HeadOneLine(from, m)
    ensures forall i :: 0 <= i < |HeadFields(from, m)| ==> FieldSafe(HeadFields(from, m)[i])
  {
    hide JoinComma, OneLine, NameSafe;
    HeadNames();
    ContentTypeName();
    ConstantValues();
    LongValues();
    OneLineConcat(MULTIPART, BOUNDARY);
  }

  lemma BodyFieldsSafe(m: Message)
    ensures FieldSafe(BodyFields(m)[0])
  {
    hide OneLine, NameSafe;
    ContentTypeName();
    ConstantValues();
    AttachmentValues();
    OneLineConcat(BodyType(m), "; charset=\"utf-8\"");
  }

  lemma AttachmentFieldsSafe(a: Attachment)
    requires OneLine(a.mimeType) && OneLine(a.filename)
    ensures forall i :: 0 <= i < |AttachmentFields(a)| ==> FieldSafe(AttachmentFields(a)[i])
  {
    hide OneLine, NameSafe;
    ContentTypeName();
    TransferEncodingName();
    DispositionName();
    ConstantValues();
    AttachmentValues();
    OneLineConcat(FILENAME, a.filename);
    OneLineConcat(FILENAME + a.filename, "\"");
  }

  lemma {:induction false} EncodedChunks(s: string, size: nat)
    requires size > 0 && forall i :: 0 <= i < |s| ==> IsAlphabet(s[i]) || s[i] == '='
    ensures forall i :: 0 <= i < |Chunked(s, size)| ==>
              0 < |Chunked(s, size)[i]| <= size
              && forall k :: 0 <= k < |Chunked(s, size)[i]| ==>
                   IsAlphabet(Chunked(s, size)[i][k]) || Chunked(s, size)[i][k] == '='
    decreases |s|
  {
    if |s| > size {
      EncodedChunks(s[size..], size);
    }
  }

  /** Every printed base64 line has 1 to 76 characters, none of them '-' or part of a line break:
      it can be neither over-long nor mistaken for a boundary. */
  lemma EncodedLinesAreSafe(content: seq<Byte>)
    ensures forall i :: 0 <= i < |Chunked(Encode(content), 76)| ==>
              var line := Chunked(Encode(content), 76)[i];
              0 < |line| <= 76 && '\r' !in line && '\n' !in line && '-' !in line
    ensures forall i :: 0 <= i < |Chunked(Encode(content), 76)| - 1 ==> |Chunked(Encode(content), 76)[i]| == 76
    ensures NoDelimiter(Chunked(Encode(content), 76), DELIM)
  {
    EncodedAlphabet(content);
    ChunkShape(Encode(content), 76);
    EncodedChunks(Encode(content), 76);
    hide Encode, Chunked;
    forall i | 0 <= i < |Chunked(Encode(content), 76)|
      ensures !HasPrefix(Chunked(Encode(content), 76)[i], DELIM)
    {
      var line := Chunked(Encode(content), 76)[i];
      NotDelimiter(line);
    }
  }

  lemma NotDelimiter(line: string)
    requires line == "" || line[0] != '-'
    ensures !HasPrefix(line, DELIM)
  {
    assert DELIM[0] == '-' && |DELIM| > 0;
    assert |DELIM| <= |line| ==> line[..|DELIM|][0] == line[0];
  }

  lemma AttachmentLinesSafe(a: Attachment)
    requires OneLine(a.mimeType) && OneLine(a.filename)
    ensures NoDelimiter(AttachmentLines(a), DELIM)
    ensures OneLines(AttachmentLines(a))
  {
    var fs := AttachmentFields(a);
    AttachmentFieldsSafe(a);
    FieldLinesSafe(fs);
    EncodedLinesAreSafe(a.content);
    NotDelimiter("");
    hide FieldLines, Encode, Chunked, HasPrefix, FieldSafe;
  }

  lemma BodyPartHeadSafe(m: Message)
    ensures NoDelimiter(FieldLines(BodyFields(m)) + [""], DELIM)
    ensures OneLines(FieldLines(BodyFields(m)))
  {
    BodyFieldsSafe(m);
    hide FieldSafe;
    FieldLinesSafe(BodyFields(m));
    NotDelimiter("");
    hide FieldLines, HasPrefix;
  }

  // ------------------------------------------------- the printed text as lines

  lemma AttachmentAsLines(a: Attachment, rest: string)
    requires OneLine(a.mimeType) && OneLine(a.filename)
    ensures NoDelimiter(AttachmentLines(a), DELIM)
    ensures Lines(Terminated([DELIM] + AttachmentLines(a)) + rest) == [DELIM] + AttachmentLines(a) + Lines(rest)
  {
    hide Lines, Terminated, AttachmentLines, OneLine;
    AttachmentLinesSafe(a);
    DelimiterOneLine();
    LinesTerminated([DELIM] + AttachmentLines(a), rest);
  }

  lemma {:induction false} AttachmentsAsLines(atts: seq<Attachment>)
    requires TypesOneLine(atts) && NamesOneLine(atts)
    ensures Lines(AttachmentsText(atts) + CLOSE) == Delimited(AttachmentParts(atts), DELIM)
    ensures forall i :: 0 <= i < |AttachmentParts(atts)| ==> NoDelimiter(AttachmentParts(atts)[i], DELIM)
  {
    hide Lines, Terminated, AttachmentLines, OneLine;
    if atts == [] {
      assert "" + CLOSE == CLOSE;
      DelimiterOneLine();
      PlainLine(CLOSE);
    } else {
      AttachmentsAsLines(atts[1..]);
      AttachmentAsLines(atts[0], AttachmentsText(atts[1..]) + CLOSE);
      Assoc(Terminated([DELIM] + AttachmentLines(atts[0])), AttachmentsText(atts[1..]), CLOSE);
      var parts := AttachmentParts(atts[1..]);
      assert ([AttachmentLines(atts[0])] + parts)[1..] == parts;
    }
  }

  function PartLines(m: Message): seq<seq<string>> { [BodyPartLines(m)] + AttachmentParts(m.attachments) }

  lemma ContentAsLines(m: Message)
    ensures Lines(ContentText(m)) == [DELIM] + BodyPartLines(m) + Lines(AttachmentsText(m.attachments) + CLOSE)
  {
    hide Lines, Terminated, AttachmentsText, FieldLines, BodyFields, NoDelimiter, OneLine;
    var head := [DELIM] + FieldLines(BodyFields(m)) + [""];
    var rest := AttachmentsText(m.attachments) + CLOSE;
    BodyPartHeadSafe(m);
    DelimiterOneLine();
    assert OneLine("") by { PlainEmpty(); }
    LinesTerminated(head, m.body + CRLF + rest);
    LinesAtBreak(m.body, rest);
    assert ContentText(m) == Terminated(head) + (m.body + CRLF + rest);
    assert head + (Lines(m.body) + Lines(rest)) == [DELIM] + BodyPartLines(m) + Lines(rest);
  }

  lemma PlainEmpty()
    ensures OneLine("")
  {}

  lemma SafeContentAsLines(m: Message)
    requires TypesOneLine(m.attachments) && NamesOneLine(m.attachments)
    ensures Lines(ContentText(m)) == Delimited(PartLines(m), DELIM)
  {
    hide Lines, AttachmentsText, AttachmentParts, ContentText, BodyPartLines, OneLine;
    ContentAsLines(m);
    AttachmentsAsLines(m.attachments);
    assert PartLines(m)[1..] == AttachmentParts(m.attachments);
  }

  lemma MessageAsLines(from: string, m: Message)
    requires HeadOneLine(from, m)
    ensures Lines(HeaderText(from, m) + ContentText(m))
            == FieldLines(HeadFields(from, m)) + [""] + Lines(ContentText(m))
  {
    HeadFieldsSafe(from, m);
    FieldLinesSafe(HeadFields(from, m));
    PlainEmpty();
    hide Lines, Terminated, ContentText, FieldLines, HeadFields, FieldSafe, OneLine;
    LinesTerminated(FieldLines(HeadFields(from, m)) + [""], ContentText(m));
  }

  // ------------------------------------------------------------- reading parts

  lemma LookupCons(f: Field, rest: seq<Field>, name: string)
    ensures Lookup([f] + rest, name) == if f.name == name then Some(f.value) else Lookup(rest, name)
  {
    assert ([f] + rest)[1..] == rest;
  }

  lemma Lookup3(f: Field, g: Field, h: Field, name: string)
    ensures Lookup([f, g, h], name)
            == if f.name == name then Some(f.value)
               else if g.name == name then Some(g.value)
               else if h.name == name then Some(h.value)
               else Lookup([], name)
  {
    hide Lookup;
    assert [f, g, h] == [f] + [g, h] && [g, h] == [g] + [h] && [h] == [h] + [];
    LookupCons(f, [g, h], name);
    LookupCons(g, [h], name);
    LookupCons(h, [], name);
  }

  lemma StripOwnPrefix(prefix: string, s: string)
    ensures StripPrefix(prefix + s, prefix) == Some(s)
  {
    assert (prefix + s)[..|prefix|] == prefix && (prefix + s)[|prefix|..] == s;
  }

  lemma AttachmentNames()
    ensures "Content-Type" != "Content-Transfer-Encoding" && "Content-Type" != "Content-Disposition"
    ensures "Content-Transfer-Encoding" != "Content-Disposition"
  {
    assert |"Content-Type"| == 12 && |"Content-Transfer-Encoding"| == 25 && |"Content-Disposition"| == 19;
  }

  lemma AttachmentFieldsLookup(a: Attachment)
    ensures var fs := AttachmentFields(a);
            && Lookup(fs, "Content-Type") == Some(TypeOf(a))
            && Lookup(fs, "Content-Transfer-Encoding") == Some("base64")
            && Lookup(fs, "Content-Disposition") == Some(FILENAME + (a.filename + "\""))
            && StripPrefix(FILENAME + (a.filename + "\""), FILENAME) == Some(a.filename + "\"")
  {
    var fs := AttachmentFields(a);
    AttachmentNames();
    Lookup3(fs[0], fs[1], fs[2], "Content-Type");
    Lookup3(fs[0], fs[1], fs[2], "Content-Transfer-Encoding");
    Lookup3(fs[0], fs[1], fs[2], "Content-Disposition");
    hide Lookup, StripPrefix;
    StripOwnPrefix(FILENAME, a.filename + "\"");
    Assoc(FILENAME, a.filename, "\"");
  }

  lemma AttachmentFieldNames(a: Attachment)
    ensures forall i :: 0 <= i < |AttachmentFields(a)| ==> ':' !in AttachmentFields(a)[i].name
  {
    ContentTypeName();
    TransferEncodingName();
    DispositionName();
    hide OneLine;
  }

  /** A printed attachment reads back with its content and type; its name is what the reader
      makes of the quoted file name. */
  lemma AttachmentRead(a: Attachment)
    ensures ReadAttachment(AttachmentLines(a))
            == match Unquote(a.filename + "\"")
               case None => None
               case Some(name) => Some(Attachment(name, TypeOf(a), a.content))
  {
    AttachmentFieldsLookup(a);
    AttachmentFieldNames(a);
    EntityRoundTrip(AttachmentFields(a), Chunked(Encode(a.content), 76));
    FlattenChunked(Encode(a.content), 76);
    DecodeEncode(a.content);
    hide AttachmentFields, ParseEntity, Lookup, StripPrefix, Decode, Encode, Chunked, Unquote, FieldLines;
  }

  lemma {:induction false} AttachmentsRead(atts: seq<Attachment>)
    ensures ReadAttachments(AttachmentParts(atts)) == Some(SentAttachments(atts)) <==> NamesSafe(atts)
  {
    hide ReadAttachment, AttachmentLines, Unquote, QuoteSafe;
    if atts != [] {
      var first, parts := AttachmentLines(atts[0]), AttachmentParts(atts[1..]);
      AttachmentsRead(atts[1..]);
      AttachmentRead(atts[0]);
      QuoteRoundTrip(atts[0].filename);
      assert ([first] + parts)[1..] == parts;
      var sent := SentAttachments(atts);
      assert sent[1..] == SentAttachments(atts[1..]) && sent == [sent[0]] + sent[1..];
      var a, rest := ReadAttachment(first), ReadAttachments(parts);
      assert a.Some? && rest.Some? ==> ([a.value] + rest.value)[1..] == rest.value;
      assert NamesSafe(atts) <==> QuoteSafe(atts[0].filename) && NamesSafe(atts[1..]) by {
        if QuoteSafe(atts[0].filename) && NamesSafe(atts[1..]) {
          forall i | 0 <= i < |atts| ensures QuoteSafe(atts[i].filename) {
            if i > 0 {
              assert QuoteSafe(atts[1..][i - 1].filename);
            }
          }
        }
        if NamesSafe(atts) {
          assert forall i :: 0 <= i < |atts[1..]| ==> atts[1..][i] == atts[i + 1];
        }
      }
    }
  }

  lemma HeadLookup1(from: string, m: Message, name: string)
    ensures var fs := HeadFields(from, m);
            Lookup(fs, name)
            == if name == "From" then Some(from)
               else if name == "To" then Some(JoinComma(m.to))
               else if name == "Subject" then Some(m.subject)
               else if name == "MIME-Version" then Some("1.0")
               else if name == "Content-Type" then Some(MULTIPART + BOUNDARY)
               else Lookup([], name)
  {
    hide JoinComma, Lookup;
    var fs := HeadFields(from, m);
    var rest := [fs[2], fs[3], fs[4]];
    assert fs == [fs[0]] + ([fs[1]] + rest);
    LookupCons(fs[0], [fs[1]] + rest, name);
    LookupCons(fs[1], rest, name);
    Lookup3(fs[2], fs[3], fs[4], name);
  }

  lemma HeadNamesDiffer()
    ensures "To" != "From" && "Subject" != "From" && "Subject" != "To"
    ensures "Content-Type" != "From" && "Content-Type" != "To" && "Content-Type" != "Subject"
              && "Content-Type" != "MIME-Version"
  {
    assert |"From"| == 4 && |"To"| == 2 && |"Subject"| == 7 && |"MIME-Version"| == 12 && |"Content-Type"| == 12;
    assert "MIME-Version"[0] != "Content-Type"[0];
  }

  lemma HeadLookup(from: string, m: Message)
    ensures var fs := HeadFields(from, m);
            && Lookup(fs, "From") == Some(from)
            && Lookup(fs, "To") == Some(JoinComma(m.to))
            && Lookup(fs, "Subject") == Some(m.subject)
            && Lookup(fs, "Content-Type") == Some(MULTIPART + BOUNDARY)
  {
    hide JoinComma, Lookup, HeadFields;
    HeadNamesDiffer();
    HeadLookup1(from, m, "From");
    HeadLookup1(from, m, "To");
    HeadLookup1(from, m, "Subject");
    HeadLookup1(from, m, "Content-Type");
  }

  lemma HeadFieldNames(from: string, m: Message)
    ensures forall i :: 0 <= i < |HeadFields(from, m)| ==> ':' !in HeadFields(from, m)[i].name
  {
    HeadNames();
    ContentTypeName();
    hide JoinComma, OneLine;
  }

  // ------------------------------------------------------------- the main result

  lemma BodyFieldsLookup(m: Message)
    ensures Lookup(BodyFields(m), "Content-Type") == Some(BodyType(m) + "; charset=\"utf-8\"")
    ensures ':' !in BodyFields(m)[0].name
  {
    ContentTypeName();
  }

  /** With the body part intact, the parts read back as sent exactly when the names are safe. */
  lemma IntactParts(from: string, m: Message)
    ensures ReadParts(HeadFields(from, m), PartLines(m)) == Some(Sent(from, m)) <==> NamesSafe(m.attachments)
  {
    HeadLookup(from, m);
    BodyFieldsLookup(m);
    EntityRoundTrip(BodyFields(m), Lines(m.body));
    JoinOfLines(m.body);
    AttachmentsRead(m.attachments);
    assert PartLines(m)[1..] == AttachmentParts(m.attachments);
    hide HeadFields, BodyFields, Lookup, ParseEntity, AttachmentParts, ReadAttachments;
    hide JoinLines, Lines, FieldLines, NamesSafe, SentAttachments;
  }

  /** With the body part cut at line n, whatever follows, the body read is not the body sent. */
  lemma CutParts(from: string, m: Message, n: nat, parts: seq<seq<string>>)
    requires n < |Lines(m.body)| && Lines(m.body)[n] != ""
    requires parts != [] && parts[0] == FieldLines(BodyFields(m)) + [""] + Lines(m.body)[..n]
    ensures ReadParts(HeadFields(from, m), parts) != Some(Sent(from, m))
  {
    BodyFieldsLookup(m);
    EntityRoundTrip(BodyFields(m), Lines(m.body)[..n]);
    JoinOfLines(m.body);
    JoinShorter(Lines(m.body), n);
    hide HeadFields, BodyFields, Lookup, ParseEntity, ReadAttachments, JoinLines, Lines, FieldLines;
  }

  lemma {:induction false} FirstDelimiter(lines: seq<string>) returns (n: nat)
    requires !NoDelimiter(lines, DELIM)
    ensures n < |lines| && HasPrefix(lines[n], DELIM) && NoDelimiter(lines[..n], DELIM)
  {
    n := 0;
    while !HasPrefix(lines[n], DELIM)
      invariant n < |lines| && NoDelimiter(lines[..n], DELIM)
      invariant exists i :: n <= i < |lines| && HasPrefix(lines[i], DELIM)
      decreases |lines| - n
    {
      n := n + 1;
    }
  }

  /** With the header on its lines, what the reader does comes down to the body parts. */
  lemma ReadPrinted(from: string, m: Message)
    requires HeadOneLine(from, m)
    ensures ReadMail(HeaderText(from, m) + ContentText(m))
            == match BodyParts(Lines(ContentText(m)), DELIM)
               case None => None
               case Some(parts) => ReadParts(HeadFields(from, m), parts)
  {
    MessageAsLines(from, m);
    HeadLookup(from, m);
    HeadFieldNames(from, m);
    EntityRoundTrip(HeadFields(from, m), Lines(ContentText(m)));
    StripOwnPrefix(MULTIPART, BOUNDARY);
    hide HeadFields, Lookup, ParseEntity, Lines, FieldLines, HeaderText, ContentText, BodyParts, ReadParts, StripPrefix;
  }

  lemma SafeBodyParts(m: Message)
    requires TypesOneLine(m.attachments) && NamesOneLine(m.attachments) && BodySafe(m.body)
    ensures BodyParts(Lines(ContentText(m)), DELIM) == Some(PartLines(m))
  {
    var parts := PartLines(m);
    SafeContentAsLines(m);
    AttachmentsAsLines(m.attachments);
    BodyPartHeadSafe(m);
    assert NoDelimiter(BodyPartLines(m), DELIM);
    DelimitedBlocks(parts, DELIM, []);
    assert ([[]] + parts)[1..] == parts;
  }

  lemma UnsafeBodyParts(m: Message) returns (n: nat)
    requires !BodySafe(m.body)
    ensures n < |Lines(m.body)| && Lines(m.body)[n] != ""
    ensures var parts := BodyParts(Lines(ContentText(m)), DELIM);
            parts.Some? ==> parts.value != [] && parts.value[0] == FieldLines(BodyFields(m)) + [""] + Lines(m.body)[..n]
  {
    n := FirstDelimiter(Lines(m.body));
    BodyPartHeadSafe(m);
    ContentAsLines(m);
    var head := FieldLines(BodyFields(m)) + [""];
    var part := BodyPartLines(m);
    hide Lines, FieldLines, BodyFields, AttachmentsText, ContentText, HasPrefix, BodyParts;
    assert part[..|head| + n] == head + Lines(m.body)[..n];
    assert part[|head| + n] == Lines(m.body)[n];
    FirstPartCut(part, |head| + n, Lines(AttachmentsText(m.attachments) + CLOSE), DELIM);
  }

  // ------------------------------------------- line breaks inside printed fields

  lemma ReadAttachmentOneLine(lines: seq<string>)
    requires OneLines(lines)
    ensures var a := ReadAttachment(lines); a.Some? ==> OneLine(a.value.mimeType)
  {
    hide OneLine, Lookup, Unquote, Decode, ParseEntity;
    EntityOnOneLine(lines);
    var e := ParseEntity(lines);
    if e.Some? {
      LookupOnOneLine(e.value.fields, "Content-Type");
    }
  }

  lemma {:induction false} ReadAttachmentsOneLine(parts: seq<seq<string>>)
    requires forall i :: 0 <= i < |parts| ==> OneLines(parts[i])
    ensures var atts := ReadAttachments(parts); atts.Some? ==> TypesOneLine(atts.value)
  {
    hide OneLine, ReadAttachment;
    if parts != [] {
      ReadAttachmentOneLine(parts[0]);
      ReadAttachmentsOneLine(parts[1..]);
    }
  }

  lemma ReadPartsOneLine(head: seq<Field>, parts: seq<seq<string>>)
    requires ValuesOneLine(head) && forall i :: 0 <= i < |parts| ==> OneLines(parts[i])
    ensures var mail := ReadParts(head, parts);
            mail.Some? ==> OneLine(mail.value.from) && OneLine(mail.value.to) && OneLine(mail.value.subject)
                           && TypesOneLine(mail.value.attachments)
  {
    hide OneLine, Lookup, ParseEntity, ReadAttachments, JoinLines;
    if parts != [] {
      LookupOnOneLine(head, "From");
      LookupOnOneLine(head, "To");
      LookupOnOneLine(head, "Subject");
      ReadAttachmentsOneLine(parts[1..]);
    }
  }

  /** Whatever text is read, no line break comes out of a header field. */
  lemma ReadMailOneLine(text: string)
    ensures var mail := ReadMail(text);
            mail.Some? ==> OneLine(mail.value.from) && OneLine(mail.value.to) && OneLine(mail.value.subject)
                           && TypesOneLine(mail.value.attachments)
  {
    hide OneLine, Lines, Lookup, ParseEntity, ReadParts, BodyParts;
    LinesAreOneLine(text);
    var e := ParseEntity(Lines(text));
    EntityOnOneLine(Lines(text));
    if e.Some? && Lookup(e.value.fields, "Content-Type").Some? {
      var boundary := StripPrefix(Lookup(e.value.fields, "Content-Type").value, MULTIPART);
      if boundary.Some? {
        BodyPartsOnOneLine(e.value.body, "--" + boundary.value);
        var parts := BodyParts(e.value.body, "--" + boundary.value);
        if parts.Some? {
          ReadPartsOneLine(e.value.fields, parts.value);
        }
      }
    }
  }

  /** What was read back as sent had no line break in header or type. */
  lemma SentOneLine(from: string, m: Message)
    requires ReadMail(HeaderText(from, m) + ContentText(m)) == Some(Sent(from, m))
    ensures HeadOneLine(from, m) && TypesOneLine(m.attachments)
  {
    hide ReadMail, HeaderText, ContentText, JoinComma, OneLine;
    ReadMailOneLine(HeaderText(from, m) + ContentText(m));
    PlainEmpty();
    var sent := SentAttachments(m.attachments);
    forall i | 0 <= i < |m.attachments| ensures OneLine(m.attachments[i].mimeType) {
      assert OneLine(sent[i].mimeType);
    }
  }

  /** The fields of an attachment whose name is cut. */
  function CutFields(a: Attachment, cut: string): seq<Field> {
    [Field("Content-Type", TypeOf(a)), Field("Content-Transfer-Encoding", "base64"),
     Field("Content-Disposition", FILENAME + cut)]
  }

  lemma DispositionLine()
    ensures '\r' !in FieldLine(Field("Content-Disposition", FILENAME))
  {
    assert '\r' !in "Content-Disposition" && '\r' !in ": " && '\r' !in FILENAME;
    NotInConcat('\r', "Content-Disposition", ": ");
    NotInConcat('\r', "Content-Disposition" + ": ", FILENAME);
  }

  lemma NotInConcat(c: char, a: string, b: string)
    requires c !in a && c !in b
    ensures c !in a + b
  {}

  lemma DispositionLines(a: Attachment, cut: string)
    ensures FieldLine(AttachmentFields(a)[2]) == FieldLine(Field("Content-Disposition", FILENAME)) + (a.filename + "\"")
    ensures FieldLine(CutFields(a, cut)[2]) == FieldLine(Field("Content-Disposition", FILENAME)) + cut
  {
    hide FieldLine;
    Assoc(FILENAME, a.filename, "\"");
    FieldLineSplit("Content-Disposition", FILENAME, a.filename + "\"");
    FieldLineSplit("Content-Disposition", FILENAME, cut);
  }

  /** A line break in a file name cuts the name there, and what follows starts a line of its own. */
  lemma CutNameLine(a: Attachment, rest: string) returns (cut: string, more: seq<string>)
    requires !OneLine(a.filename)
    ensures |cut| < |a.filename|
    ensures Lines(FieldLine(AttachmentFields(a)[2]) + CRLF + rest) == [FieldLine(CutFields(a, cut)[2])] + more
  {
    var line := FieldLine(AttachmentFields(a)[2]);
    hide OneLine, Lines, FieldLine, AttachmentFields, CutFields, Index;
    var quoted := a.filename + "\"";
    cut := Lines(quoted)[0];
    more := Lines(quoted)[1..] + Lines(rest);
    FirstLineShorter(a.filename, "\"");
    DispositionLine();
    DispositionLines(a, cut);
    LinesPrepend(FieldLine(Field("Content-Disposition", FILENAME)), quoted);
    LinesAtBreak(line, rest);
  }

  lemma CutName(a: Attachment, rest: string) returns (cut: string, more: seq<string>)
    requires OneLine(a.mimeType) && !OneLine(a.filename)
    ensures |cut| < |a.filename|
    ensures Lines(Terminated([DELIM] + AttachmentLines(a)) + rest) == [DELIM] + FieldLines(CutFields(a, cut)) + more
    ensures NoDelimiter(FieldLines(CutFields(a, cut)), DELIM)
  {
    hide OneLine, Lines, Terminated, FieldLine, FieldLines, Encode, Chunked, HasPrefix;
    var fs := AttachmentFields(a);
    var tail := [""] + Chunked(Encode(a.content), 76);
    cut, more := CutNameLine(a, Terminated(tail) + rest);
    var cs := CutFields(a, cut);
    assert fs[0] == cs[0] && fs[1] == cs[1];
    assert AttachmentLines(a) == FieldLines([fs[0], fs[1], fs[2]]) + tail;
    CutHeadSafe(a, cut);
    hide AttachmentLines, AttachmentFields, CutFields;
    FieldLinesOf3(fs[0], fs[1], fs[2]);
    FieldLinesOf3(cs[0], cs[1], cs[2]);
    var head, last := [DELIM, FieldLine(fs[0]), FieldLine(fs[1])], FieldLine(fs[2]);
    assert [DELIM] + AttachmentLines(a) == head + ([last] + tail);
    LinesUpTo(head, last, tail, rest);
    assert cs == [cs[0], cs[1], cs[2]];
  }

  lemma CutHeadSafe(a: Attachment, cut: string)
    requires OneLine(a.mimeType)
    ensures var cs := CutFields(a, cut);
            && OneLines([DELIM, FieldLine(cs[0]), FieldLine(cs[1])])
            && NoDelimiter([FieldLine(cs[0]), FieldLine(cs[1]), FieldLine(cs[2])], DELIM)
  {
    var cs := CutFields(a, cut);
    ContentTypeName();
    TransferEncodingName();
    DispositionName();
    DelimiterOneLine();
    ConstantValues();
    AttachmentValues();
    hide OneLine;
    FieldLineSafe(cs[0]);
    FieldLineSafe(cs[1]);
    NotDelimiter(FieldLine(cs[2]));
  }

  lemma CutFieldsLookup(a: Attachment, cut: string)
    ensures Lookup(CutFields(a, cut), "Content-Disposition") == Some(FILENAME + cut)
    ensures forall i :: 0 <= i < |CutFields(a, cut)| ==> ':' !in CutFields(a, cut)[i].name
  {
    ContentTypeName();
    TransferEncodingName();
    DispositionName();
    AttachmentNames();
    var cs := CutFields(a, cut);
    Lookup3(cs[0], cs[1], cs[2], "Content-Disposition");
  }

  /** A part whose file name is cut does not read as the attachment that was sent. */
  lemma CutNameRead(a: Attachment, cut: string, part: seq<string>)
    requires |cut| < |a.filename| && FieldLines(CutFields(a, cut)) <= part
    ensures var r := ReadAttachment(part); r.Some? ==> r.value.filename != a.filename
  {
    var cs := CutFields(a, cut);
    CutFieldsLookup(a, cut);
    hide CutFields, Lookup, ParseEntity, Unquote, Decode, StripPrefix, FieldLines;
    EntityBegins(cs, part[|FieldLines(cs)|..]);
    assert FieldLines(cs) + part[|FieldLines(cs)|..] == part;
    var e := ParseEntity(part);
    if e.Some? {
      LookupBegins(cs, e.value.fields, "Content-Disposition");
      StripOwnPrefix(FILENAME, cut);
      UnquoteShrinks(cut);
    }
  }

  /** With a line break in some file name, the attachments do not read back. */
  lemma {:induction false} UnsafeNames(atts: seq<Attachment>, block: seq<string>)
    requires TypesOneLine(atts) && !NamesOneLine(atts)
    ensures var bs := Blocks(Lines(AttachmentsText(atts) + CLOSE), DELIM, block);
            bs.Some? ==> bs.value != [] && bs.value[0] == block
                         && ReadAttachments(bs.value[1..]) != Some(SentAttachments(atts))
  {
    hide OneLine, Lines, Terminated, AttachmentLines, ReadAttachment, Blocks, FieldLines;
    var a, rest := atts[0], AttachmentsText(atts[1..]) + CLOSE;
    Assoc(Terminated([DELIM] + AttachmentLines(a)), AttachmentsText(atts[1..]), CLOSE);
    var lines := Lines(AttachmentsText(atts) + CLOSE);
    var bs := Blocks(lines, DELIM, block);
    if OneLine(a.filename) {
      var part := AttachmentLines(a);
      AttachmentAsLines(a, rest);
      Assoc([DELIM], part, Lines(rest));
      DelimiterEnds(part + Lines(rest), DELIM, block);
      PlainBlock(part, Lines(rest), DELIM, []);
      assert [] + part == part;
      UnsafeNames(atts[1..], part);
      assert SentAttachments(atts)[1..] == SentAttachments(atts[1..]);
    } else {
      var cut, more := CutName(a, rest);
      var part := FieldLines(CutFields(a, cut));
      Assoc([DELIM], part, more);
      DelimiterEnds(part + more, DELIM, block);
      PlainBlock(part, more, DELIM, []);
      assert [] + part == part;
      BlockBegins(more, DELIM, part);
      if bs.Some? {
        CutNameRead(a, cut, bs.value[1]);
        assert bs.value[1..][0] == bs.value[1];
        assert SentAttachments(atts)[0].filename == a.filename;
      }
    }
  }

  lemma UnsafeNamesMail(from: string, m: Message)
    requires TypesOneLine(m.attachments) && !NamesOneLine(m.attachments) && BodySafe(m.body)
    ensures var parts := BodyParts(Lines(ContentText(m)), DELIM);
            parts.Some? ==> ReadParts(HeadFields(from, m), parts.value) != Some(Sent(from, m))
  {
    var part, rest := BodyPartLines(m), Lines(AttachmentsText(m.attachments) + CLOSE);
    BodyPartHeadSafe(m);
    assert NoDelimiter(part, DELIM);
    hide OneLine, Lines, AttachmentsText, BodyPartLines, ContentText, Blocks;
    hide ReadAttachments, Lookup, HeadFields, ParseEntity;
    ContentAsLines(m);
    Assoc([DELIM], part, rest);
    DelimiterEnds(part + rest, DELIM, []);
    PlainBlock(part, rest, DELIM, []);
    assert [] + part == part;
    UnsafeNames(m.attachments, part);
  }

  /** Reading a printed message gives back sender, recipients, subject, body and attachments
      if and only if no field printed on one line holds a line break, no line of the body starts with
      the delimiter and no file name holds a quote or a backslash. */
  lemma MailRoundTrip(from: string, m: Message)
    ensures ReadMail(HeaderText(from, m) + ContentText(m)) == Some(Sent(from, m))
            <==> LineSafe(from, m) && BodySafe(m.body) && NamesSafe(m.attachments)
  {
    hide ReadMail, HeaderText, ContentText, ReadParts, BodyParts, PartLines;
    hide Sent, NamesSafe, HeadFields, Lines, BodySafe;
    hide OneLine, TypesOneLine, NamesOneLine, HeadOneLine;
    if !HeadOneLine(from, m) || !TypesOneLine(m.attachments) {
      if ReadMail(HeaderText(from, m) + ContentText(m)) == Some(Sent(from, m)) {
        SentOneLine(from, m);
      }
    } else {
      ReadPrinted(from, m);
      if !BodySafe(m.body) {
        var n := UnsafeBodyParts(m);
        var parts := BodyParts(Lines(ContentText(m)), DELIM);
        if parts.Some? {
          CutParts(from, m, n, parts.value);
        }
      } else if NamesOneLine(m.attachments) {
        SafeBodyParts(m);
        IntactParts(from, m);
      } else {
        UnsafeNamesMail(from, m);
      }
    }
  }
}
