/** Header fields, quoted strings and multipart bodies, as a reader sees them. */
module MimeReader {
  import opened Text
  import opened MimeLines

  datatype Field = Field(name: string, value: string)

  function FieldLine(f: Field): string { f.name + ": " + f.value }

  function ParseField(line: string): Option<Field> {
    match Index(line, ": ")
    case None => None
    case Some(p) => Some(Field(line[..p], line[p + 2..]))
  }

  lemma FieldRoundTrip(f: Field)
    requires ':' !in f.name
    ensures ParseField(FieldLine(f)) == Some(f)
  {
    var line := FieldLine(f);
    var n := |f.name|;
    assert line[n..n + 2] == ": ";
    assert OccursAt(line, ": ", n);
    forall j | 0 <= j < n ensures !OccursAt(line, ": ", j) {
      assert line[j] == f.name[j] != ':';
      assert j + 2 <= |line| ==> line[j..j + 2][0] != ": "[0];
    }
    assert line[..n] == f.name && line[n + 2..] == f.value;
  }

  lemma FieldLineSplit(name: string, v: string, w: string)
    ensures FieldLine(Field(name, v + w)) == FieldLine(Field(name, v)) + w
  {
    Assoc(name + ": ", v, w);
  }

  // ----------------------------------------------------------------- entities

  /** Header fields up to the first empty line, then the body lines. */
  datatype Entity = Entity(fields: seq<Field>, body: seq<string>)

  function ParseEntity(lines: seq<string>): Option<Entity> {
    if lines == [] then Some(Entity([], []))
    else if lines[0] == "" then Some(Entity([], lines[1..]))
    else
      match ParseField(lines[0])
      case None => None
      case Some(f) =>
        match ParseEntity(lines[1..])
        case None => None
        case Some(e) => Some(Entity([f] + e.fields, e.body))
  }

  function FieldLines(fs: seq<Field>): seq<string> {
    if fs == [] then [] else [FieldLine(fs[0])] + FieldLines(fs[1..])
  }

  lemma EntityField(line: string, rest: seq<string>)
    requires line != ""
    ensures ParseEntity([line] + rest)
            == match ParseField(line)
               case None => None
               case Some(f) =>
                 match ParseEntity(rest) case None => None case Some(e) => Some(Entity([f] + e.fields, e.body))
  {
    hide ParseField;
    assert ([line] + rest)[1..] == rest;
  }

  lemma {:induction false} EntityRoundTrip(fs: seq<Field>, body: seq<string>)
    requires forall i :: 0 <= i < |fs| ==> ':' !in fs[i].name
    ensures ParseEntity(FieldLines(fs) + [""] + body) == Some(Entity(fs, body))
  {
    hide ParseField;
    if fs == [] {
      assert (FieldLines(fs) + [""] + body)[1..] == body;
    } else {
      var line, rest := FieldLine(fs[0]), FieldLines(fs[1..]) + [""] + body;
      EntityRoundTrip(fs[1..], body);
      FieldRoundTrip(fs[0]);
      EntityField(line, rest);
      assert FieldLines(fs) == [line] + FieldLines(fs[1..]);
      hide *;
      assert ([line] + FieldLines(fs[1..])) + [""] + body == [line] + rest;
      assert [fs[0]] + fs[1..] == fs;
    }
  }

  function Lookup(fs: seq<Field>, name: string): Option<string> {
    if fs == [] then None
    else if fs[0].name == name then Some(fs[0].value)
    else Lookup(fs[1..], name)
  }

  lemma FieldOnOneLine(line: string)
    requires OneLine(line)
    ensures ParseField(line).Some? ==> OneLine(ParseField(line).value.value)
  {
    var p := Index(line, ": ");
    if p.Some? {
      OneLineSlice(line, p.value + 2, |line|);
      assert line[p.value + 2..] == line[p.value + 2..|line|];
    }
  }

  /** What is read from lines without a line break inside holds none either. */
  lemma {:induction false} EntityOnOneLine(lines: seq<string>)
    requires OneLines(lines)
    ensures var e := ParseEntity(lines);
            e.Some? ==> ValuesOneLine(e.value.fields) && OneLines(e.value.body)
  {
    hide ParseField, OneLine;
    if lines != [] && lines[0] != "" {
      EntityOnOneLine(lines[1..]);
      FieldOnOneLine(lines[0]);
    }
  }

  ghost predicate ValuesOneLine(fs: seq<Field>) { forall i :: 0 <= i < |fs| ==> OneLine(fs[i].value) }

  lemma {:induction false} LookupOnOneLine(fs: seq<Field>, name: string)
    requires ValuesOneLine(fs)
    ensures Lookup(fs, name).Some? ==> OneLine(Lookup(fs, name).value)
  {
    hide OneLine;
    if fs != [] {
      LookupOnOneLine(fs[1..], name);
    }
  }

  /** Printed fields are the first that are read, whatever lines follow. */
  lemma {:induction false} EntityBegins(fs: seq<Field>, rest: seq<string>)
    requires forall i :: 0 <= i < |fs| ==> ':' !in fs[i].name
    ensures var e := ParseEntity(FieldLines(fs) + rest);
            e.Some? ==> fs <= e.value.fields
  {
    hide ParseField;
    if fs != [] {
      EntityBegins(fs[1..], rest);
      FieldRoundTrip(fs[0]);
      EntityField(FieldLine(fs[0]), FieldLines(fs[1..]) + rest);
      assert FieldLines(fs) + rest == [FieldLine(fs[0])] + (FieldLines(fs[1..]) + rest);
    }
  }

  lemma {:induction false} LookupBegins(fs: seq<Field>, all: seq<Field>, name: string)
    requires fs <= all && Lookup(fs, name).Some?
    ensures Lookup(all, name) == Lookup(fs, name)
  {
    if fs[0].name != name {
      LookupBegins(fs[1..], all[1..], name);
    }
  }

  // ------------------------------------------------------------ quoted strings

  /** The rest of a quoted string after its opening quote; a backslash quotes the next character. */
  function Unquote(s: string): Option<string> {
    if s == "" then None
    else if s[0] == '"' then if |s| == 1 then Some("") else None
    else if s[0] == '\\' then
      if |s| == 1 then None
      else match Unquote(s[2..]) case None => None case Some(r) => Some([s[1]] + r)
    else match Unquote(s[1..]) case None => None case Some(r) => Some([s[0]] + r)
  }

  predicate QuoteSafe(s: string) { '"' !in s && '\\' !in s }

  lemma {:induction false} UnquoteShrinks(s: string)
    ensures Unquote(s).Some? ==> |Unquote(s).value| < |s|
  {
    if s != "" && s[0] != '"' {
      if s[0] != '\\' {
        UnquoteShrinks(s[1..]);
      } else if |s| > 1 {
        UnquoteShrinks(s[2..]);
      }
    }
  }

  /** A text put between quotes reads back exactly when it holds no quote and no backslash. */
  lemma {:induction false} QuoteRoundTrip(s: string)
    ensures Unquote(s + "\"") == Some(s) <==> QuoteSafe(s)
  {
    var q := s + "\"";
    if s == "" {
    } else if s[0] == '"' {
      assert q[0] == '"' && |q| > 1;
    } else if s[0] == '\\' {
      assert q[0] == '\\';
      UnquoteShrinks(q[2..]);
    } else {
      assert q[1..] == s[1..] + "\"";
      QuoteRoundTrip(s[1..]);
      assert s == [s[0]] + s[1..];
      var r := Unquote(q[1..]);
      assert r.Some? ==> ([s[0]] + r.value)[1..] == r.value;
      assert QuoteSafe(s) <==> QuoteSafe(s[1..]);
    }
  }

  // ---------------------------------------------------------------- multipart

  /** The blocks of lines between delimiter lines, up to the closing delimiter.  As RFC 2046
      allows, a line is a delimiter when it starts with one. */
  function Blocks(lines: seq<string>, delim: string, block: seq<string>): Option<seq<seq<string>>> {
    if lines == [] then None
    else if HasPrefix(lines[0], delim + "--") then Some([block])
    else if HasPrefix(lines[0], delim) then
      match Blocks(lines[1..], delim, [])
      case None => None
      case Some(bs) => Some([block] + bs)
    else Blocks(lines[1..], delim, block + [lines[0]])
  }

  lemma {:induction false} BlocksOnOneLine(lines: seq<string>, delim: string, block: seq<string>)
    requires OneLines(lines) && OneLines(block)
    ensures var bs := Blocks(lines, delim, block);
            bs.Some? ==> forall i :: 0 <= i < |bs.value| ==> OneLines(bs.value[i])
  {
    hide OneLine, HasPrefix;
    if lines != [] {
      BlocksOnOneLine(lines[1..], delim, []);
      BlocksOnOneLine(lines[1..], delim, block + [lines[0]]);
    }
  }

  /** The first block begins with the lines already collected. */
  lemma {:induction false} BlockBegins(lines: seq<string>, delim: string, block: seq<string>)
    ensures var bs := Blocks(lines, delim, block);
            bs.Some? ==> bs.value != [] && block <= bs.value[0]
  {
    hide HasPrefix;
    if lines != [] {
      BlockBegins(lines[1..], delim, block + [lines[0]]);
    }
  }

  /** The body parts: the blocks without the preamble. */
  function BodyParts(lines: seq<string>, delim: string): Option<seq<seq<string>>> {
    match Blocks(lines, delim, [])
    case None => None
    case Some(bs) => if bs == [] then None else Some(bs[1..])
  }

  lemma BodyPartsOnOneLine(lines: seq<string>, delim: string)
    requires OneLines(lines)
    ensures var parts := BodyParts(lines, delim);
            parts.Some? ==> forall i :: 0 <= i < |parts.value| ==> OneLines(parts.value[i])
  {
    hide Blocks, OneLine;
    BlocksOnOneLine(lines, delim, []);
  }

  ghost predicate NoDelimiter(lines: seq<string>, delim: string) {
    forall i :: 0 <= i < |lines| ==> !HasPrefix(lines[i], delim)
  }

  lemma CloseIsDelimiter(line: string, delim: string)
    requires HasPrefix(line, delim + "--")
    ensures HasPrefix(line, delim)
  {
    assert line[..|delim|] == line[..|delim + "--"|][..|delim|];
  }

  lemma {:induction false} PlainBlock(part: seq<string>, rest: seq<string>, delim: string, block: seq<string>)
    requires NoDelimiter(part, delim)
    ensures Blocks(part + rest, delim, block) == Blocks(rest, delim, block + part)
  {
    if part == [] {
      assert part + rest == rest && block + part == block;
    } else {
      var lines := part + rest;
      assert lines[0] == part[0] && lines[1..] == part[1..] + rest;
      assert !HasPrefix(part[0], delim);
      if HasPrefix(part[0], delim + "--") {
        CloseIsDelimiter(part[0], delim);
      }
      PlainBlock(part[1..], rest, delim, block + [part[0]]);
      assert (block + [part[0]]) + part[1..] == block + part;
    }
  }

  lemma DelimiterEnds(rest: seq<string>, delim: string, block: seq<string>)
    ensures Blocks([delim] + rest, delim, block)
            == match Blocks(rest, delim, []) case None => None case Some(bs) => Some([block] + bs)
  {
    assert ([delim] + rest)[1..] == rest;
    assert delim[..|delim|] == delim;
  }

  lemma CloseEnds(delim: string, block: seq<string>)
    ensures Blocks([delim + "--"], delim, block) == Some([block])
  {
    var close := delim + "--";
    assert close[..|close|] == close;
  }

  /** Body parts printed with a delimiter line before each. */
  function Delimited(parts: seq<seq<string>>, delim: string): seq<string> {
    if parts == [] then [delim + "--"] else [delim] + parts[0] + Delimited(parts[1..], delim)
  }

  lemma {:induction false} DelimitedBlocks(parts: seq<seq<string>>, delim: string, block: seq<string>)
    requires forall i :: 0 <= i < |parts| ==> NoDelimiter(parts[i], delim)
    ensures Blocks(Delimited(parts, delim), delim, block) == Some([block] + parts)
  {
    if parts == [] {
      CloseEnds(delim, block);
      assert [block] + parts == [block];
    } else {
      var rest := Delimited(parts[1..], delim);
      Assoc([delim], parts[0], rest);
      DelimiterEnds(parts[0] + rest, delim, block);
      assert NoDelimiter(parts[0], delim);
      PlainBlock(parts[0], rest, delim, []);
      DelimitedBlocks(parts[1..], delim, [] + parts[0]);
      hide Blocks;
      assert [] + parts[0] == parts[0];
      assert [block] + ([parts[0]] + parts[1..]) == [block] + parts;
    }
  }

  /** If some line of the first part starts with the delimiter, that part is cut there. */
  lemma FirstPartCut(part: seq<string>, n: nat, rest: seq<string>, delim: string)
    requires n < |part| && HasPrefix(part[n], delim) && NoDelimiter(part[..n], delim)
    ensures var parts := BodyParts([delim] + part + rest, delim);
            parts.Some? ==> parts.value != [] && parts.value[0] == part[..n]
  {
    var lines := part + rest;
    Assoc([delim], part, rest);
    DelimiterEnds(lines, delim, []);
    assert lines == part[..n] + lines[n..];
    PlainBlock(part[..n], lines[n..], delim, []);
    assert [] + part[..n] == part[..n];
    assert lines[n..][0] == part[n];
  }
}
