/**
 * The CSV text the export writes: `formatCsv`'s field quoting, commas between fields and
 * a line feed between records. `ReadDocument` is a reader for that text in the manner of
 * RFC 4180 (a quoted field may hold commas, line feeds and doubled quotes), against which
 * the writer is shown to lose nothing.
 */
module Csv {

  /** A character that forces quoting: `/[",\n]/`. */
  predicate IsSpecial(c: char) {
    c == '"' || c == ',' || c == '\n'
  }

  predicate NeedsQuote(s: string) {
    exists i :: 0 <= i < |s| && IsSpecial(s[i])
  }

  /** `s.replace(/"/g, '""')`. */
  function Escape(s: string): (r: string)
    ensures |r| >= |s|
    ensures NeedsQuote(r) <==> NeedsQuote(s)
  {
    if s == [] then []
    else
      var head := if s[0] == '"' then "\"\"" else [s[0]];
      var r := head + Escape(s[1..]);
      assert NeedsQuote(head) <==> IsSpecial(s[0]) by {
        if NeedsQuote(head) {
          var i :| 0 <= i < |head| && IsSpecial(head[i]);
          assert head[i] == '"' || head[i] == s[0];
        }
        if IsSpecial(s[0]) { assert IsSpecial(head[0]); }
      }
      assert s == [s[0]] + s[1..];
      NeedsQuoteConcat([s[0]], s[1..]);
      NeedsQuoteConcat(head, Escape(s[1..]));
      assert NeedsQuote([s[0]]) <==> IsSpecial(s[0]) by {
        if IsSpecial(s[0]) { assert IsSpecial([s[0]][0]); }
      }
      r
  }

  /** A string field as `formatCsv` writes it: escaped, and wrapped in quotes when needed. */
  function Encode(s: string): string {
    var e := Escape(s);
    if NeedsQuote(e) then "\"" + e + "\"" else e
  }

  /** Fields joined with `,`. */
  function JoinFields(fs: seq<string>): string {
    if fs == [] then "" else if |fs| == 1 then fs[0] else fs[0] + "," + JoinFields(fs[1..])
  }

  /** Records joined with a line feed, none after the last. */
  function JoinLines(ls: seq<string>): string {
    if ls == [] then "" else if |ls| == 1 then ls[0] else ls[0] + "\n" + JoinLines(ls[1..])
  }

  /** `fields.map(formatCsv).join(',')` for string fields. */
  function EncodeRow(fs: seq<string>): string {
    JoinFields(seq(|fs|, i requires 0 <= i < |fs| => Encode(fs[i])))
  }

  function EncodeDocument(rows: seq<seq<string>>): string {
    JoinLines(seq(|rows|, i requires 0 <= i < |rows| => EncodeRow(rows[i])))
  }

  // ---------------------------------------------------------------------------------------
  // Reading back
  // ---------------------------------------------------------------------------------------

  /** Reads an unquoted field up to the next comma or line feed. */
  function ReadPlain(s: string): (r: (string, string))
    ensures |r.1| <= |s|
  {
    if s == [] || s[0] == ',' || s[0] == '\n' then ([], s)
    else
      var (f, rest) := ReadPlain(s[1..]);
      ([s[0]] + f, rest)
  }

  /** Reads the inside of a quoted field, a doubled quote standing for one, up to the closing quote. */
  function ReadQuoted(s: string): (r: (string, string))
    ensures |r.1| < |s| || (s == [] && r.1 == [])
  {
    if s == [] then ([], [])
    else if s[0] == '"' && |s| > 1 && s[1] == '"' then
      var (f, rest) := ReadQuoted(s[2..]);
      (['"'] + f, rest)
    else if s[0] == '"' then ([], s[1..])
    else
      var (f, rest) := ReadQuoted(s[1..]);
      ([s[0]] + f, rest)
  }

  /** Reads one field; what is left starts at the separator that ended it. */
  function ReadField(s: string): (r: (string, string))
    ensures |r.1| <= |s|
  {
    if s != [] && s[0] == '"' then ReadQuoted(s[1..]) else ReadPlain(s)
  }

  /** Reads the fields of one record and skips the line feed that ends it. */
  function ReadRecord(s: string): (r: (seq<string>, string))
    ensures |r.1| < |s| || (s == [] && r.1 == [])
    decreases |s|
  {
    var (f, rest) := ReadField(s);
    if rest != [] && rest[0] == ',' then
      var (fs, after) := ReadRecord(rest[1..]);
      ([f] + fs, after)
    else if rest != [] then ([f], rest[1..])
    else ([f], [])
  }

  /** Reads records until the text runs out. */
  function ReadDocument(s: string): seq<seq<string>>
    decreases |s|
  {
    if s == [] then []
    else
      var (fs, rest) := ReadRecord(s);
      [fs] + ReadDocument(rest)
  }

  // ---------------------------------------------------------------------------------------
  // Round trips
  // ---------------------------------------------------------------------------------------

  /** What may follow a field: nothing, or the separator of the next field or record. */
  predicate AtBoundary(t: string) {
    t == [] || t[0] == ',' || t[0] == '\n'
  }

  lemma {:induction false} ReadPlainOf(x: string, t: string)
    requires !NeedsQuote(x) && AtBoundary(t)
    ensures ReadPlain(x + t) == (x, t)
  {
    if x != [] {
      PlainTail(x);
      assert (x + t)[0] == x[0] && (x + t)[1..] == x[1..] + t;
      ReadPlainOf(x[1..], t);
      assert [x[0]] + x[1..] == x;
    } else {
      assert x + t == t;
    }
  }

  lemma {:induction false} ReadQuotedOf(x: string, t: string)
    requires AtBoundary(t)
    ensures ReadQuoted(Escape(x) + "\"" + t) == (x, t)
  {
    var s := Escape(x) + "\"" + t;
    if x == [] {
      assert s == "\"" + t;
      assert s[1..] == t;
    } else {
      var head := if x[0] == '"' then "\"\"" else [x[0]];
      assert Escape(x) == head + Escape(x[1..]);
      assert s == head + (Escape(x[1..]) + "\"" + t);
      ReadQuotedOf(x[1..], t);
      if x[0] == '"' {
        assert s[2..] == Escape(x[1..]) + "\"" + t;
      } else {
        assert s[1..] == Escape(x[1..]) + "\"" + t;
      }
      assert [x[0]] + x[1..] == x;
    }
  }

  /** A written field reads back as itself, leaving what followed it. */
  lemma ReadFieldOf(x: string, t: string)
    requires AtBoundary(t)
    ensures ReadField(Encode(x) + t) == (x, t)
  {
    var e := Escape(x);
    if NeedsQuote(e) {
      assert Encode(x) + t == "\"" + (e + "\"" + t);
      ReadFieldQuoted(e + "\"" + t);
      ReadQuotedOf(x, t);
    } else {
      EscapePlain(x);
      assert Encode(x) + t == x + t;
      ReadFieldPlain(x, t);
      ReadPlainOf(x, t);
    }
  }

  /** A field that opens with a quote is read as a quoted field. */
  lemma ReadFieldQuoted(body: string)
    ensures ReadField("\"" + body) == ReadQuoted(body)
  {
    assert ("\"" + body)[1..] == body;
  }

  /** A field that needs no quoting is read as a plain field. */
  lemma ReadFieldPlain(x: string, t: string)
    requires !NeedsQuote(x) && AtBoundary(t)
    ensures ReadField(x + t) == ReadPlain(x + t)
  {
    if x != [] {
      assert !IsSpecial(x[0]);
      assert (x + t)[0] == x[0];
    } else {
      assert x + t == t;
    }
  }

  /** Escaping changes only text that holds a quote. */
  lemma {:induction false} EscapePlain(x: string)
    requires !NeedsQuote(x)
    ensures Escape(x) == x
  {
    if x != [] {
      PlainTail(x);
      EscapePlain(x[1..]);
    }
  }

  /** The first character and the rest of a text that needs no quoting need none either. */
  lemma PlainTail(x: string)
    requires x != [] && !NeedsQuote(x)
    ensures !IsSpecial(x[0]) && !NeedsQuote(x[1..])
  {
    assert !IsSpecial(x[0]);
    forall i | 0 <= i < |x[1..]| ensures !IsSpecial(x[1..][i]) {
      assert x[1..][i] == x[i + 1];
    }
  }

  /** What may follow a record: nothing, or a line feed and more. */
  predicate AtRecordEnd(t: string) {
    t == [] || t[0] == '\n'
  }

  /** `EncodeRow` peels off its first field. */
  lemma EncodeRowSplit(fs: seq<string>)
    requires fs != []
    ensures |fs| == 1 ==> EncodeRow(fs) == Encode(fs[0])
    ensures |fs| > 1 ==> EncodeRow(fs) == Encode(fs[0]) + "," + EncodeRow(fs[1..])
  {
    var encoded := seq(|fs|, i requires 0 <= i < |fs| => Encode(fs[i]));
    assert encoded[1..] == seq(|fs[1..]|, i requires 0 <= i < |fs[1..]| => Encode(fs[1..][i]));
  }

  /** A written record reads back as its fields. */
  lemma {:induction false} ReadRecordOf(fs: seq<string>, t: string)
    requires fs != [] && AtRecordEnd(t)
    ensures ReadRecord(EncodeRow(fs) + t) == (fs, if t == [] then [] else t[1..])
  {
    EncodeRowSplit(fs);
    if |fs| == 1 {
      ReadFieldOf(fs[0], t);
      assert [fs[0]] == fs;
    } else {
      ReadRecordOf(fs[1..], t);
      ReadRecordCons(fs, t, if t == [] then [] else t[1..]);
    }
  }

  /** A record of two or more fields reads back once its tail does. */
  lemma ReadRecordCons(fs: seq<string>, t: string, after: string)
    requires |fs| > 1
    requires ReadRecord(EncodeRow(fs[1..]) + t) == (fs[1..], after)
    ensures ReadRecord(EncodeRow(fs) + t) == (fs, after)
  {
    EncodeRowSplit(fs);
    ReadRecordStep(fs[0], EncodeRow(fs[1..]) + t);
    assert EncodeRow(fs) + t == Encode(fs[0]) + "," + (EncodeRow(fs[1..]) + t);
    assert [fs[0]] + fs[1..] == fs;
  }

  /** A field followed by a comma is read, then the record goes on after the comma. */
  lemma ReadRecordStep(x: string, more: string)
    ensures ReadRecord(Encode(x) + "," + more) == ([x] + ReadRecord(more).0, ReadRecord(more).1)
  {
    var u := "," + more;
    assert Encode(x) + "," + more == Encode(x) + u;
    ReadFieldOf(x, u);
    ReadRecordAfterComma(Encode(x) + u, x, more);
  }

  /** A record whose first field ends at a comma goes on with the text after the comma. */
  lemma ReadRecordAfterComma(s: string, f: string, more: string)
    requires ReadField(s) == (f, "," + more)
    ensures ReadRecord(s) == ([f] + ReadRecord(more).0, ReadRecord(more).1)
  {
    assert ("," + more)[1..] == more;
  }

  /** A written document of records with two or more fields each reads back as its records. */
  lemma {:induction false} ReadDocumentOf(rows: seq<seq<string>>)
    requires forall i :: 0 <= i < |rows| ==> |rows[i]| >= 2
    ensures ReadDocument(EncodeDocument(rows)) == rows
  {
    if rows != [] {
      var lines := seq(|rows|, i requires 0 <= i < |rows| => EncodeRow(rows[i]));
      var rest := EncodeDocument(rows[1..]);
      assert lines[1..] == seq(|rows[1..]|, i requires 0 <= i < |rows[1..]| => EncodeRow(rows[1..][i]));
      RowNotEmpty(rows[0]);
      if |rows| == 1 {
        assert EncodeDocument(rows) == EncodeRow(rows[0]) + [];
        ReadRecordOf(rows[0], []);
      } else {
        assert EncodeDocument(rows) == EncodeRow(rows[0]) + ("\n" + rest);
        ReadRecordOf(rows[0], "\n" + rest);
        assert ("\n" + rest)[1..] == rest;
        ReadDocumentOf(rows[1..]);
      }
      assert [rows[0]] + rows[1..] == rows;
    }
  }

  /** A record of two or more fields is never written as the empty text. */
  lemma RowNotEmpty(fs: seq<string>)
    requires |fs| >= 2
    ensures EncodeRow(fs) != []
  {
    var encoded := seq(|fs|, i requires 0 <= i < |fs| => Encode(fs[i]));
    assert EncodeRow(fs) == encoded[0] + "," + JoinFields(encoded[1..]);
  }

  /** A text needs quoting exactly when one of its two parts does. */
  lemma NeedsQuoteConcat(a: string, b: string)
    ensures NeedsQuote(a + b) <==> NeedsQuote(a) || NeedsQuote(b)
  {
    if NeedsQuote(a + b) {
      var i :| 0 <= i < |a + b| && IsSpecial((a + b)[i]);
      if i < |a| { assert IsSpecial(a[i]); } else { assert IsSpecial(b[i - |a|]); }
    }
    if NeedsQuote(a) {
      var i :| 0 <= i < |a| && IsSpecial(a[i]);
      assert IsSpecial((a + b)[i]);
    }
    if NeedsQuote(b) {
      var i :| 0 <= i < |b| && IsSpecial(b[i]);
      assert IsSpecial((a + b)[|a| + i]);
    }
  }

  /** A text written out as is reads back from `Encode` unchanged. */
  lemma EncodePlain(x: string)
    requires !NeedsQuote(x)
    ensures Encode(x) == x
  {
    EscapePlain(x);
  }
}
