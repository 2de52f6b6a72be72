/** What a reader of a printed message learns of the message that was sent, part by part. */
module MimeMeaning {
  import opened Text
  import opened Base64
  import opened Chunks
  import opened MimeLines
  import opened MimeReader
  import opened Mime

  // -------------------------------------------------------------- recipients

  /** The texts between commas. */
  function SplitComma(s: string): (pieces: seq<string>)
    ensures pieces != []
  {
    if s == "" then [""]
    else
      var rest := SplitComma(s[1..]);
      if s[0] == ',' then [""] + rest else [[s[0]] + rest[0]] + rest[1..]
  }

  ghost predicate NoCommas(xs: seq<string>) { forall i :: 0 <= i < |xs| ==> ',' !in xs[i] }

  lemma {:induction false} PiecesHaveNoCommas(s: string)
    ensures NoCommas(SplitComma(s))
  {
    if s != "" {
      PiecesHaveNoCommas(s[1..]);
    }
  }

  lemma {:induction false} SplitAtComma(a: string, b: string)
    requires ',' !in a
    ensures SplitComma(a + "," + b) == [a] + SplitComma(b)
  {
    var s := a + "," + b;
    if a == "" {
      assert s[0] == ',' && s[1..] == b;
    } else {
      SplitAtComma(a[1..], b);
      assert s[0] == a[0] != ',' && s[1..] == a[1..] + "," + b;
      assert [a[0]] + a[1..] == a;
    }
  }

  lemma {:induction false} SplitPlain(a: string)
    requires ',' !in a
    ensures SplitComma(a) == [a]
  {
    if a != "" {
      SplitPlain(a[1..]);
      assert [a[0]] + a[1..] == a;
    }
  }

  lemma {:induction false} SplitsBack(xs: seq<string>)
    requires xs != [] && NoCommas(xs)
    ensures SplitComma(JoinComma(xs)) == xs
  {
    SplitPlain(xs[0]);
    if |xs| > 1 {
      SplitsBack(xs[1..]);
      SplitAtComma(xs[0], JoinComma(xs[1..]));
    }
  }

  /** The list of recipients can be told from the printed one exactly when there is a recipient and
      none holds a comma; the empty list prints as one empty recipient does. */
  lemma RecipientsRoundTrip(xs: seq<string>)
    ensures SplitComma(JoinComma(xs)) == xs <==> xs != [] && NoCommas(xs)
    ensures JoinComma([]) == JoinComma([""]) == ""
  {
    PiecesHaveNoCommas(JoinComma(xs));
    if xs != [] && NoCommas(xs) {
      SplitsBack(xs);
    }
  }

  // ---------------------------------------------------------- the whole message

  /** Nothing in the message breaks a line, opens a part or closes a quoted name. */
  ghost predicate Sendable(from: string, m: Message) {
    LineSafe(from, m) && BodySafe(m.body) && NamesSafe(m.attachments)
  }

  /** What is read of a message that can be sent: sender, subject and body as they were; the recipients,
      from what stands under To; the content type, from the kind of body; and of each attachment
      its name and content, and its MIME type, or the type of any bytes where it has none. */
  lemma MessageReadsBack(from: string, m: Message)
    requires Sendable(from, m)
    ensures var mail := ReadMail(HeaderText(from, m) + ContentText(m));
            && mail.Some? && mail.value.from == from && mail.value.subject == m.subject && mail.value.body == m.body
            && (SplitComma(mail.value.to) == m.to <==> m.to != [] && forall i :: 0 <= i < |m.to| ==> ',' !in m.to[i])
            && (m.to == [] ==> mail.value.to == "")
            && (m.isHTML ==> mail.value.bodyType == "text/html; charset=\"utf-8\"")
            && (!m.isHTML ==> mail.value.bodyType == "text/plain; charset=\"utf-8\"")
            && AttachmentsReadBack(m.attachments, mail.value.attachments)
  {
    MailRoundTrip(from, m);
    RecipientsRoundTrip(m.to);
    BodyTypeIs(m);
    hide ReadMail, HeaderText, ContentText, LineSafe, BodySafe, NamesSafe, JoinComma, SplitComma, BodyType;
  }

  lemma BodyTypeIs(m: Message)
    ensures BodyType(m) + "; charset=\"utf-8\""
            == if m.isHTML then "text/html; charset=\"utf-8\"" else "text/plain; charset=\"utf-8\""
  {}

  ghost predicate AttachmentsReadBack(sent: seq<Attachment>, read: seq<Attachment>) {
    && |read| == |sent|
    && forall i :: 0 <= i < |sent| ==>
         && read[i].filename == sent[i].filename && read[i].content == sent[i].content
         && (sent[i].mimeType != "" ==> read[i].mimeType == sent[i].mimeType)
         && (sent[i].mimeType == "" ==> read[i].mimeType == "application/octet-stream")
  }

  /** The header of any message whose sender, recipients and subject stand on one line announces a
      multipart body in MIME version 1.0. */
  lemma HeaderAnnounces(from: string, m: Message)
    requires HeadOneLine(from, m)
    ensures var e := ParseEntity(Lines(HeaderText(from, m) + ContentText(m)));
            && e.Some?
            && Lookup(e.value.fields, "MIME-Version") == Some("1.0")
            && Lookup(e.value.fields, "Content-Type") == Some("multipart/mixed; boundary=boundary-1234567890")
            && Lookup(e.value.fields, "From") == Some(from)
            && Lookup(e.value.fields, "Subject") == Some(m.subject)
  {
    MessageAsLines(from, m);
    HeadFieldNames(from, m);
    EntityRoundTrip(HeadFields(from, m), Lines(ContentText(m)));
    HeadLookup(from, m);
    VersionLookup(from, m);
    MultipartIs();
    hide HeadFields, Lookup, ParseEntity, Lines, FieldLines, HeaderText, ContentText, HeadOneLine;
  }

  /** The lines printed for an attachment: its fields, an empty line, and its content in lines of 76. */
  lemma AttachmentAnnounces(a: Attachment)
    ensures var lines := AttachmentLines(a);
            && |lines| >= 4
            && (a.mimeType != "" ==> lines[0] == "Content-Type: " + a.mimeType)
            && (a.mimeType == "" ==> lines[0] == "Content-Type: application/octet-stream")
            && lines[1] == "Content-Transfer-Encoding: base64"
            && lines[2] == "Content-Disposition: attachment; filename=\"" + a.filename + "\""
            && lines[3] == ""
            && Decode(Flatten(lines[4..])) == Some(a.content)
            && forall i :: 4 <= i < |lines| ==> |lines[i]| <= 76 && (i < |lines| - 1 ==> |lines[i]| == 76)
  {
    var fs := AttachmentFields(a);
    FieldLinesOf3(fs[0], fs[1], fs[2]);
    EncodedLinesAreSafe(a.content);
    FlattenChunked(Encode(a.content), 76);
    DecodeEncode(a.content);
    AttachmentFieldLines(a);
    hide FieldLines, FieldLine, Encode, Decode, Chunked, AttachmentFields;
    assert AttachmentLines(a)[4..] == Chunked(Encode(a.content), 76);
  }

  lemma AttachmentFieldLines(a: Attachment)
    ensures var fs := AttachmentFields(a);
            && (a.mimeType != "" ==> FieldLine(fs[0]) == "Content-Type: " + a.mimeType)
            && (a.mimeType == "" ==> FieldLine(fs[0]) == "Content-Type: application/octet-stream")
            && FieldLine(fs[1]) == "Content-Transfer-Encoding: base64"
            && FieldLine(fs[2]) == "Content-Disposition: attachment; filename=\"" + a.filename + "\""
  {
    TypeLine(a);
    DispositionText(a);
  }

  lemma TypeLine(a: Attachment)
    ensures var line := FieldLine(AttachmentFields(a)[0]);
            && (a.mimeType != "" ==> line == "Content-Type: " + a.mimeType)
            && (a.mimeType == "" ==> line == "Content-Type: application/octet-stream")
  {
    assert "Content-Type" + ": " == "Content-Type: ";
    if a.mimeType == "" {
      PlainType();
    }
  }

  lemma PlainType()
    ensures "Content-Type: " + "application/octet-stream" == "Content-Type: application/octet-stream"
  {}

  lemma DispositionText(a: Attachment)
    ensures FieldLine(AttachmentFields(a)[2]) == "Content-Disposition: attachment; filename=\"" + a.filename + "\""
  {
    DispositionLines(a, "");
    DispositionStart();
    hide FieldLine;
    Assoc("Content-Disposition: attachment; filename=\"", a.filename, "\"");
  }

  lemma DispositionStart()
    ensures FieldLine(Field("Content-Disposition", FILENAME)) == "Content-Disposition: attachment; filename=\""
  {}

  lemma VersionLookup(from: string, m: Message)
    ensures Lookup(HeadFields(from, m), "MIME-Version") == Some("1.0")
  {
    HeadLookup1(from, m, "MIME-Version");
    VersionNames();
    hide Lookup, HeadFields, JoinComma;
  }

  lemma VersionNames()
    ensures "MIME-Version" != "From" && "MIME-Version" != "To" && "MIME-Version" != "Subject"
  {
    assert |"From"| == 4 && |"To"| == 2 && |"Subject"| == 7 && |"MIME-Version"| == 12;
  }

  lemma MultipartIs()
    ensures MULTIPART + BOUNDARY == "multipart/mixed; boundary=boundary-1234567890"
  {}

  // ------------------------------------------------------------------- base64

  /** The alphabet of section 4 of RFC 4648, table 1: A to Z, a to z, 0 to 9, plus and slash. */
  lemma AlphabetIs(s: Sextet)
    ensures SextetChar(0) == 'A' && SextetChar(25) == 'Z' && SextetChar(26) == 'a' && SextetChar(51) == 'z'
    ensures SextetChar(52) == '0' && SextetChar(61) == '9' && SextetChar(62) == '+' && SextetChar(63) == '/'
    ensures s < 61 && s != 25 && s != 51 ==> SextetChar(s + 1) as int == SextetChar(s) as int + 1
  {}

  /** The test vectors of section 10 of RFC 4648: 102, 111, 111, 98, 97, 114 are the letters of foobar. */
  lemma EncodesVectors()
    ensures Encode([102]) == "Zg=="
    ensures Encode([102, 111]) == "Zm8="
    ensures Encode([102, 111, 111]) == "Zm9v"
    ensures Encode([102, 111, 111, 98]) == "Zm9vYg=="
    ensures Encode([102, 111, 111, 98, 97, 114]) == "Zm9vYmFy"
  {
    assert [102, 111, 111, 98][3..] == [98];
    assert [102, 111, 111, 98, 97, 114][3..] == [98, 97, 114];
    assert [98, 97, 114][3..] == [] && [102, 111, 111][3..] == [];
  }
}
