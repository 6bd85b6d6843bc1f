/** The comma-separated text the export writes, and a reader for it in the
    style of section 2 of RFC 4180: fields separated by ',', records by a
    line feed, a field either bare or wrapped in '"' with every inner '"'
    doubled. The reader is the yardstick the writer is proved against. */
module Csv {
  import opened Wrappers
  import opened Text
  import opened Seqs

  // ---------------------------------------------------------------------------
  // writing

  /** `String(value).replace(/"/g, '""')`. */
  function Escape(s: string): string
    decreases |s|
  {
    if s == [] then "" else (if s[0] == '"' then "\"\"" else [s[0]]) + Escape(s[1..])
  }

  /** `"${escaped}"`: one quoted cell. */
  function Quote(s: string): string {
    "\"" + Escape(s) + "\""
  }

  /** `values.join(',')` of quoted cells. */
  function QuotedLine(vs: seq<string>): string {
    Join(Map(vs, Quote), ",")
  }

  // ---------------------------------------------------------------------------
  // reading

  /** The rest of a quoted field after its opening '"': its value and the
      text after the closing '"'; `None` when it never closes. */
  function ReadQuoted(s: string): (r: Option<(string, string)>)
    ensures r.Some? ==> |r.value.1| < |s|
    decreases |s|
  {
    if s == [] then None
    else if s[0] == '"' then
      if |s| > 1 && s[1] == '"' then
        match ReadQuoted(s[2..])
        case None => None
        case Some((v, rest)) => Some(("\"" + v, rest))
      else Some(("", s[1..]))
    else
      match ReadQuoted(s[1..])
      case None => None
      case Some((v, rest)) => Some(([s[0]] + v, rest))
  }

  /** A bare field: everything up to the next ',' or line feed. */
  function ReadBare(s: string): (r: (string, string))
    ensures r.0 + r.1 == s
    decreases |s|
  {
    if s == [] || s[0] == ',' || s[0] == '\n' then ("", s)
    else
      var (v, rest) := ReadBare(s[1..]);
      ([s[0]] + v, rest)
  }

  function ReadField(s: string): (r: Option<(string, string)>)
    ensures r.Some? ==> |r.value.1| <= |s|
  {
    if s != [] && s[0] == '"' then ReadQuoted(s[1..]) else Some(ReadBare(s))
  }

  /** One record: its fields, and the text after its line feed. */
  function ReadRecord(s: string): (r: Option<(seq<string>, string)>)
    ensures r.Some? && s != [] ==> |r.value.1| < |s|
    decreases |s|
  {
    match ReadField(s)
    case None => None
    case Some((v, rest)) =>
      if rest == [] then Some(([v], []))
      else if rest[0] == '\n' then Some(([v], rest[1..]))
      else if rest[0] == ',' then
        match ReadRecord(rest[1..])
        case None => None
        case Some((vs, after)) => Some(([v] + vs, after))
      else None
  }

  /** All the records of a text; none for the empty text. */
  function ReadRecords(s: string): Option<seq<seq<string>>>
    decreases |s|
  {
    if s == [] then Some([])
    else
      match ReadRecord(s)
      case None => None
      case Some((r, rest)) =>
        match ReadRecords(rest)
        case None => None
        case Some(rs) => Some([r] + rs)
  }

  // ---------------------------------------------------------------------------
  // reading back what was written

  /** How a record continues after its first field. */
  lemma ReadRecordAfterField(s: string, v: string, rest: string)
    requires ReadField(s) == Some((v, rest))
    ensures rest == [] ==> ReadRecord(s) == Some(([v], []))
    ensures rest != [] && rest[0] == '\n' ==> ReadRecord(s) == Some(([v], rest[1..]))
    ensures rest != [] && rest[0] == ',' && ReadRecord(rest[1..]).Some? ==>
              ReadRecord(s) == Some(([v] + ReadRecord(rest[1..]).value.0, ReadRecord(rest[1..]).value.1))
  {
  }

  /** A quoted cell reads back as its value, whatever follows that does not
      start with '"'. */
  lemma {:induction false} ReadQuotedEscape(v: string, t: string)
    requires t == [] || t[0] != '"'
    ensures ReadQuoted(Escape(v) + "\"" + t) == Some((v, t))
    decreases |v|
  {
    var s := Escape(v) + "\"" + t;
    if v == [] {
      assert s == "\"" + t;
      assert s[1..] == t;
    } else if v[0] == '"' {
      ReadQuotedEscape(v[1..], t);
      assert s == "\"\"" + (Escape(v[1..]) + "\"" + t);
      assert s[2..] == Escape(v[1..]) + "\"" + t;
      assert v == "\"" + v[1..];
    } else {
      ReadQuotedEscape(v[1..], t);
      assert s == [v[0]] + (Escape(v[1..]) + "\"" + t);
      assert s[1..] == Escape(v[1..]) + "\"" + t;
      assert v == [v[0]] + v[1..];
    }
  }

  lemma ReadQuotedField(v: string, t: string)
    requires t == [] || t[0] != '"'
    ensures ReadField(Quote(v) + t) == Some((v, t))
  {
    ReadQuotedEscape(v, t);
    assert Quote(v) + t == "\"" + (Escape(v) + "\"" + t);
  }

  /** A line of quoted cells reads back as its values, ending at the end of
      the text or at a line feed. */
  lemma {:induction false} ReadQuotedLine(vs: seq<string>, t: string)
    requires |vs| >= 1
    requires t == [] || t[0] == '\n'
    ensures ReadRecord(QuotedLine(vs) + t) == Some((vs, if t == [] then [] else t[1..]))
    decreases |vs|
  {
    var cells := Map(vs, Quote);
    if |vs| == 1 {
      assert QuotedLine(vs) == Quote(vs[0]);
      ReadQuotedField(vs[0], t);
      ReadRecordAfterField(QuotedLine(vs) + t, vs[0], t);
      assert vs == [vs[0]];
    } else {
      var rest := QuotedLine(vs[1..]) + t;
      assert cells[1..] == Map(vs[1..], Quote);
      assert QuotedLine(vs) + t == Quote(vs[0]) + ("," + rest);
      ReadQuotedField(vs[0], "," + rest);
      assert ("," + rest)[1..] == rest;
      ReadQuotedLine(vs[1..], t);
      ReadRecordAfterField(QuotedLine(vs) + t, vs[0], "," + rest);
      assert vs == [vs[0]] + vs[1..];
    }
  }

  /** A header name written bare reads back as itself. */
  predicate IsBareName(h: string) {
    ',' !in h && '\n' !in h && (h == [] || h[0] != '"')
  }

  lemma {:induction false} ReadBareName(h: string, t: string)
    requires ',' !in h && '\n' !in h
    requires t == [] || t[0] == ',' || t[0] == '\n'
    ensures ReadBare(h + t) == (h, t)
    decreases |h|
  {
    if h != [] {
      assert (h + t)[1..] == h[1..] + t;
      ReadBareName(h[1..], t);
      assert h == [h[0]] + h[1..];
    } else {
      assert h + t == t;
    }
  }

  lemma ReadBareField(h: string, t: string)
    requires IsBareName(h)
    requires t == [] || t[0] == ',' || t[0] == '\n'
    ensures ReadField(h + t) == Some((h, t))
  {
    ReadBareName(h, t);
    if h == [] {
      assert h + t == t;
    } else {
      assert (h + t)[0] == h[0];
    }
  }

  /** A line of bare names reads back as the names. */
  lemma {:induction false} ReadBareLine(hs: seq<string>, t: string)
    requires |hs| >= 1
    requires forall i :: 0 <= i < |hs| ==> IsBareName(hs[i])
    requires t == [] || t[0] == '\n'
    ensures ReadRecord(Join(hs, ",") + t) == Some((hs, if t == [] then [] else t[1..]))
    decreases |hs|
  {
    if |hs| == 1 {
      assert Join(hs, ",") == hs[0];
      ReadBareField(hs[0], t);
      ReadRecordAfterField(Join(hs, ",") + t, hs[0], t);
      assert hs == [hs[0]];
    } else {
      var rest := Join(hs[1..], ",") + t;
      assert Join(hs, ",") + t == hs[0] + ("," + rest);
      ReadBareField(hs[0], "," + rest);
      assert ("," + rest)[1..] == rest;
      assert forall i :: 0 <= i < |hs[1..]| ==> IsBareName(hs[1..][i]) by {
        forall i | 0 <= i < |hs[1..]| ensures IsBareName(hs[1..][i]) {
          assert hs[1..][i] == hs[i + 1];
        }
      }
      ReadBareLine(hs[1..], t);
      ReadRecordAfterField(Join(hs, ",") + t, hs[0], "," + rest);
      assert hs == [hs[0]] + hs[1..];
    }
  }

  /** How the records continue after the first. */
  lemma ReadRecordsAfterRecord(s: string, r: seq<string>, rest: string)
    requires s != [] && ReadRecord(s) == Some((r, rest)) && ReadRecords(rest).Some?
    ensures ReadRecords(s) == Some([r] + ReadRecords(rest).value)
  {
  }

  /** Lines of quoted cells joined by line feeds read back as their values. */
  lemma {:induction false} ReadQuotedLines(rows: seq<seq<string>>)
    requires forall i :: 0 <= i < |rows| ==> |rows[i]| >= 1
    ensures ReadRecords(Join(Map(rows, QuotedLine), "\n")) == Some(rows)
    decreases |rows|
  {
    var lines := Map(rows, QuotedLine);
    if |rows| == 1 {
      var s := QuotedLine(rows[0]);
      assert Join(lines, "\n") == s;
      ReadQuotedLine(rows[0], []);
      assert s + [] == s;
      QuotedLineNonEmpty(rows[0]);
      assert ReadRecord(s) == Some((rows[0], ""));
      assert ReadRecords("") == Some([]);
      ReadRecordsAfterRecord(s, rows[0], "");
      assert ReadRecords(s) == Some([rows[0]] + ReadRecords("").value);
      assert [rows[0]] + ReadRecords("").value == [rows[0]];
      assert rows == [rows[0]];
    } else if |rows| > 1 {
      var rest := Join(lines[1..], "\n");
      var s := QuotedLine(rows[0]) + ("\n" + rest);
      assert lines[1..] == Map(rows[1..], QuotedLine);
      assert Join(lines, "\n") == s;
      ReadQuotedLine(rows[0], "\n" + rest);
      assert ("\n" + rest)[1..] == rest;
      QuotedLineNonEmpty(rows[0]);
      ReadQuotedLines(rows[1..]);
      ReadRecordsAfterRecord(s, rows[0], rest);
      assert rows == [rows[0]] + rows[1..];
    }
  }

  lemma QuotedLineNonEmpty(vs: seq<string>)
    requires |vs| >= 1
    ensures QuotedLine(vs) != []
  {
    assert Map(vs, Quote)[0] == Quote(vs[0]);
    assert |Quote(vs[0])| >= 2;
    if |vs| > 1 {
      assert QuotedLine(vs) == Quote(vs[0]) + "," + Join(Map(vs, Quote)[1..], ",");
    }
  }
}
