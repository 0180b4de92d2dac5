/** The dashboard's CSV row parser, against the quoting rules of section 2 of RFC 4180. */
module CsvRow {

  const QUOTE := '"'
  const COMMA := ','

  /** What the parser makes of the rest of a line, with a field begun and a quoting state. */
  ghost function Parse(rest: string, current: string, inQuotes: bool): seq<string>
    decreases |rest|
  {
    if rest == "" then [current]
    else if rest[0] == QUOTE && inQuotes && |rest| > 1 && rest[1] == QUOTE then
      Parse(rest[2..], current + [QUOTE], true)
    else if rest[0] == QUOTE then Parse(rest[1..], current, !inQuotes)
    else if rest[0] == COMMA && !inQuotes then [current] + Parse(rest[1..], "", false)
    else Parse(rest[1..], current + [rest[0]], inQuotes)
  }

  /** `parseCsvRow`. */
  method ParseCsvRow(line: string) returns (result: seq<string>)
    ensures result == Parse(line, "", false)
  {
    result := [];
    var current, inQuotes := "", false;
    var i := 0;
    assert line[0..] == line;
    while i < |line|
      invariant 0 <= i <= |line|
      invariant result + Parse(line[i..], current, inQuotes) == Parse(line, "", false)
    {
      var rest := line[i..];
      assert rest[0] == line[i] && rest[1..] == line[i + 1..]
             && (|rest| > 1 ==> rest[1] == line[i + 1] && rest[2..] == line[i + 2..]);
      var c := line[i];
      if c == QUOTE && inQuotes && i + 1 < |line| && line[i + 1] == QUOTE {
        current := current + [QUOTE];
        i := i + 2;
      } else if c == QUOTE {
        inQuotes := !inQuotes;
        i := i + 1;
      } else if c == COMMA && !inQuotes {
        assert result + ([current] + Parse(rest[1..], "", false)) == (result + [current]) + Parse(rest[1..], "", false);
        result := result + [current];
        current := "";
        i := i + 1;
      } else {
        current := current + [c];
        i := i + 1;
      }
    }
    assert line[i..] == "";
    result := result + [current];
  }

  // ----- any line

  ghost function WithoutQuotes(s: string): string {
    if s == "" then "" else (if s[0] == QUOTE then "" else [s[0]]) + WithoutQuotes(s[1..])
  }

  /** The commas with an even number of quotes before them. */
  ghost function CommasOutside(s: string, inQuotes: bool): nat {
    if s == "" then 0
    else if s[0] == QUOTE then CommasOutside(s[1..], !inQuotes)
    else (if s[0] == COMMA && !inQuotes then 1 else 0) + CommasOutside(s[1..], inQuotes)
  }

  lemma {:induction false} WithoutQuotesConcat(a: string, b: string)
    ensures WithoutQuotes(a + b) == WithoutQuotes(a) + WithoutQuotes(b)
  {
    if a == "" {
      assert a + b == b;
    } else {
      assert (a + b)[1..] == a[1..] + b;
      WithoutQuotesConcat(a[1..], b);
    }
  }

  lemma WithoutQuotesSnoc(s: string, c: char)
    ensures WithoutQuotes(s + [c]) == WithoutQuotes(s) + if c == QUOTE then "" else [c]
  {
    WithoutQuotesConcat(s, [c]);
    assert [c][1..] == "";
  }

  lemma {:induction false} FieldsFrom(rest: string, current: string, inQuotes: bool)
    ensures |Parse(rest, current, inQuotes)| == 1 + CommasOutside(rest, inQuotes)
    decreases |rest|
  {
    if rest != "" {
      if rest[0] == QUOTE && inQuotes && |rest| > 1 && rest[1] == QUOTE {
        assert rest[1..][0] == QUOTE && rest[1..][1..] == rest[2..];
        FieldsFrom(rest[2..], current + [QUOTE], true);
      } else if rest[0] == QUOTE {
        FieldsFrom(rest[1..], current, !inQuotes);
      } else if rest[0] == COMMA && !inQuotes {
        FieldsFrom(rest[1..], "", false);
      } else {
        FieldsFrom(rest[1..], current + [rest[0]], inQuotes);
      }
    }
  }

  lemma RowOfMore(first: string, more: seq<string>)
    requires more != []
    ensures Row([first] + more) == first + ([COMMA] + Row(more))
  {
    assert ([first] + more)[1..] == more;
  }

  lemma CharactersOfMore(first: string, more: seq<string>)
    requires more != []
    ensures WithoutQuotes(Row([first] + more)) == WithoutQuotes(first) + ([COMMA] + WithoutQuotes(Row(more)))
  {
    RowOfMore(first, more);
    WithoutQuotesConcat(first, [COMMA] + Row(more));
    assert ([COMMA] + Row(more))[1..] == Row(more);
  }

  lemma {:induction false} CharactersFrom(rest: string, current: string, inQuotes: bool)
    ensures var fields := Parse(rest, current, inQuotes);
            fields != [] && WithoutQuotes(Row(fields)) == WithoutQuotes(current) + WithoutQuotes(rest)
    decreases |rest|
  {
    if rest != "" {
      if rest[0] == QUOTE && inQuotes && |rest| > 1 && rest[1] == QUOTE {
        assert rest[1..][0] == QUOTE && rest[1..][1..] == rest[2..];
        CharactersFrom(rest[2..], current + [QUOTE], true);
        WithoutQuotesSnoc(current, QUOTE);
      } else if rest[0] == QUOTE {
        CharactersFrom(rest[1..], current, !inQuotes);
      } else if rest[0] == COMMA && !inQuotes {
        CharactersFrom(rest[1..], "", false);
        CharactersOfMore(current, Parse(rest[1..], "", false));
      } else {
        CharactersFrom(rest[1..], current + [rest[0]], inQuotes);
        WithoutQuotesSnoc(current, rest[0]);
      }
    }
  }

  /** Any line, well-formed or not: it is cut at the commas with an even number of quotes before them and
      nowhere else, and the fields with commas between them are the line again, but for quotes. */
  lemma AnyLineIsCut(line: string)
    ensures var fields := Parse(line, "", false);
            && |fields| == 1 + CommasOutside(line, false)
            && WithoutQuotes(Row(fields)) == WithoutQuotes(line)
  {
    FieldsFrom(line, "", false);
    CharactersFrom(line, "", false);
  }

  // ----- the grammar

  /** Every double quote doubled. */
  ghost function Escape(field: string): string {
    if field == "" then "" else EscapeOne(field[0]) + Escape(field[1..])
  }

  ghost function Quoted(field: string): string {
    [QUOTE] + Escape(field) + [QUOTE]
  }

  /** A field may stand without quotes when it holds no quote, comma or line break. */
  ghost predicate MayStandBare(field: string) {
    forall i :: 0 <= i < |field| ==> field[i] !in {QUOTE, COMMA, '\r', '\n'}
  }

  /** The text is one of the ways to write the field. */
  ghost predicate Writes(text: string, field: string) {
    text == Quoted(field) || (text == field && MayStandBare(field))
  }

  /** Written fields with commas between them. */
  ghost function Row(texts: seq<string>): string
    requires texts != []
  {
    if |texts| == 1 then texts[0] else texts[0] + [COMMA] + Row(texts[1..])
  }

  // ----- the round trip

  lemma {:induction false} ParseBare(field: string, rest: string, current: string)
    requires MayStandBare(field)
    ensures Parse(field + rest, current, false) == Parse(rest, current + field, false)
  {
    if field == "" {
      assert field + rest == rest && current + field == current;
    } else {
      assert (field + rest)[0] == field[0] && (field + rest)[1..] == field[1..] + rest;
      ParseBare(field[1..], rest, current + [field[0]]);
      assert current + [field[0]] + field[1..] == current + field;
    }
  }

  /** One escaped character, inside quotes. */
  ghost function EscapeOne(c: char): string {
    if c == QUOTE then [QUOTE, QUOTE] else [c]
  }

  lemma ParseInner(c: char, more: string, current: string)
    ensures Parse(EscapeOne(c) + more, current, true) == Parse(more, current + [c], true)
  {
    var text := EscapeOne(c) + more;
    if c == QUOTE {
      assert text[0] == text[1] == QUOTE && text[2..] == more;
    } else {
      assert text[0] == c && text[1..] == more;
    }
  }

  lemma ParseClosing(rest: string, current: string)
    requires rest != "" ==> rest[0] != QUOTE
    ensures Parse([QUOTE] + rest, current, true) == Parse(rest, current, false)
  {
    assert ([QUOTE] + rest)[1..] == rest;
  }

  lemma EscapeFirst(field: string, tail: string)
    requires field != ""
    ensures Escape(field) + tail == EscapeOne(field[0]) + (Escape(field[1..]) + tail)
  {
  }

  lemma AppendFirst(current: string, field: string)
    requires field != ""
    ensures current + [field[0]] + field[1..] == current + field
  {
  }

  /** Inside quotes the parser undoes the doubling. */
  lemma {:induction false} ParseEscaped(field: string, tail: string, current: string)
    ensures Parse(Escape(field) + tail, current, true) == Parse(tail, current + field, true)
  {
    if field == "" {
      assert Escape(field) + tail == tail && current + field == current;
    } else {
      EscapeFirst(field, tail);
      ParseInner(field[0], Escape(field[1..]) + tail, current);
      ParseEscaped(field[1..], tail, current + [field[0]]);
      AppendFirst(current, field);
    }
  }

  lemma ParseWritten(text: string, field: string, rest: string)
    requires Writes(text, field) && (rest != "" ==> rest[0] == COMMA)
    ensures Parse(text + rest, "", false) == Parse(rest, field, false)
  {
    assert "" + field == field;
    if text == Quoted(field) {
      var inner := Escape(field) + ([QUOTE] + rest);
      assert text + rest == [QUOTE] + inner && ([QUOTE] + inner)[1..] == inner;
      ParseEscaped(field, [QUOTE] + rest, "");
      ParseClosing(rest, field);
    } else {
      ParseBare(field, rest, "");
    }
  }

  lemma ParseFirst(text: string, field: string, more: string)
    requires Writes(text, field)
    ensures Parse(text + ([COMMA] + more), "", false) == [field] + Parse(more, "", false)
  {
    ParseWritten(text, field, [COMMA] + more);
    assert ([COMMA] + more)[1..] == more;
  }

  /** Parsing any admissible writing of a non-empty row gives back exactly its fields. */
  lemma {:induction false} RoundTrip(texts: seq<string>, fields: seq<string>)
    requires |texts| == |fields| > 0 && forall k :: 0 <= k < |fields| ==> Writes(texts[k], fields[k])
    ensures Parse(Row(texts), "", false) == fields
  {
    assert Writes(texts[0], fields[0]);
    if |texts| == 1 {
      ParseWritten(texts[0], fields[0], "");
      assert texts[0] + "" == texts[0] && fields == [fields[0]];
    } else {
      RoundTrip(texts[1..], fields[1..]);
      ParseFirst(texts[0], fields[0], Row(texts[1..]));
      assert texts[0] + ([COMMA] + Row(texts[1..])) == Row(texts) && fields == [fields[0]] + fields[1..];
    }
  }

  /** Two rows with a writing in common are the same row. */
  lemma WritingsTellRowsApart(a: seq<string>, b: seq<string>, x: seq<string>, y: seq<string>)
    requires |a| == |x| > 0 && (forall k :: 0 <= k < |x| ==> Writes(a[k], x[k]))
    requires |b| == |y| > 0 && (forall k :: 0 <= k < |y| ==> Writes(b[k], y[k]))
    requires Row(a) == Row(b)
    ensures x == y
  {
    RoundTrip(a, x);
    RoundTrip(b, y);
  }

  // ----- the exporting side

  /** How Python's csv writer puts a field, by default: quoted only where it has to be. */
  ghost function Put(field: string): string {
    if MayStandBare(field) then field else Quoted(field)
  }

  ghost function PutAll(fields: seq<string>): (texts: seq<string>)
    ensures |texts| == |fields| && forall k :: 0 <= k < |fields| ==> texts[k] == Put(fields[k])
  {
    if fields == [] then [] else [Put(fields[0])] + PutAll(fields[1..])
  }

  /** One row as the csv writer leaves it, without the line end. A row of one empty field is quoted, to
      tell it from no row at all. */
  ghost function ExportedRow(fields: seq<string>): string
    requires fields != []
  {
    if fields == [""] then Quoted("") else Row(PutAll(fields))
  }

  /** Every row can be exported, and parsing what was exported gives back exactly its fields. */
  lemma ExportedRowParses(fields: seq<string>)
    requires fields != []
    ensures Parse(ExportedRow(fields), "", false) == fields
  {
    if fields == [""] {
      assert Writes(Quoted(""), "");
      RoundTrip([Quoted("")], fields);
    } else {
      RoundTrip(PutAll(fields), fields);
    }
  }
}
