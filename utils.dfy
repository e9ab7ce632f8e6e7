/**
 * `lib/utils`: the age of a patient on a given day, the names and
 * descriptions of the six therapy phases, and the text of a CSV export.
 */
module Utils {
  import opened Wrappers
  import opened Strings
  import opened Lists

  /** A calendar date; the month and day are compared as numbers only. */
  datatype Date = Date(year: int, month: int, day: int)

  /** `a` is the same day as `b` or an earlier one. */
  predicate OnOrBefore(a: Date, b: Date) {
    a.year < b.year || (a.year == b.year && (a.month < b.month || (a.month == b.month && a.day <= b.day)))
  }

  /** The `k`-th birthday of someone born on `b`. */
  function Anniversary(b: Date, k: int): Date {
    Date(b.year + k, b.month, b.day)
  }

  /** A person is `k` years old on a day when the `k`-th birthday has come and the next one has not. */
  predicate AgeIs(b: Date, today: Date, k: int) {
    OnOrBefore(Anniversary(b, k), today) && !OnOrBefore(Anniversary(b, k + 1), today)
  }

  /**
   * `calculateAge(birthDateString)`: `parsed` is what `new Date(...)` makes
   * of the string (`None` for an invalid date) and `today` the current date.
   * The result is the number of birthdays that have come by today.
   */
  method CalculateAge(birthDateString: string, parsed: Option<Date>, today: Date) returns (age: Option<int>)
    ensures birthDateString == "" || parsed.None? ==> age.None?
    ensures birthDateString != "" && parsed.Some? ==> age.Some? && AgeIs(parsed.value, today, age.value)
  {
    if birthDateString == "" {
      return None;
    }
    if parsed.None? {
      return None;
    }
    var birthDate := parsed.value;
    var years := today.year - birthDate.year;
    var monthDifference := today.month - birthDate.month;
    if monthDifference < 0 || (monthDifference == 0 && today.day < birthDate.day) {
      years := years - 1;
    }
    age := Some(years);
  }

  /** Later birthdays come later. */
  lemma AnniversaryMonotone(b: Date, j: int, k: int, today: Date)
    requires j <= k && OnOrBefore(Anniversary(b, k), today)
    ensures OnOrBefore(Anniversary(b, j), today)
  {
  }

  /** An age is determined by the birth date and the day. */
  lemma AgeUnique(b: Date, today: Date, j: int, k: int)
    requires AgeIs(b, today, j) && AgeIs(b, today, k)
    ensures j == k
  {
    if j < k {
      AnniversaryMonotone(b, j + 1, k, today);
    } else if k < j {
      AnniversaryMonotone(b, k + 1, j, today);
    }
  }

  /** The six phases of the protocol, numbered from 1: name and description. */
  const PhaseDetails: seq<(string, string)> := [
    ("Fase 1: Liberação", "Foco na liberação de bloqueios energéticos e emocionais primários."),
    ("Fase 2: Regeneração", "Estímulo aos processos naturais de cura e regeneração do corpo e da mente."),
    ("Fase 3: Equilíbrio", "Harmonização dos sistemas corporais e campos energéticos."),
    ("Fase 4: Vitalidade", "Aumento da energia vital, clareza mental e bem-estar geral."),
    ("Fase 5: Integração", "Integração das mudanças e fortalecimento da resiliência."),
    ("Fase 6: Autonomia", "Desenvolvimento da autoconsciência e autonomia na manutenção da saúde.")
  ]

  const NoDescription: string := "Descrição não disponível."

  /** `getPhaseName(n)`: the name of a known phase, otherwise "Fase n". */
  function PhaseName(n: int): (r: string)
    ensures 1 <= n <= 6 ==> r == PhaseDetails[n - 1].0
    ensures !(1 <= n <= 6) ==> r == "Fase " + IntToString(n)
  {
    if 1 <= n <= |PhaseDetails| then PhaseDetails[n - 1].0 else "Fase " + IntToString(n)
  }

  /** `getPhaseDescription(n)`. */
  function PhaseDescription(n: int): (r: string)
    ensures 1 <= n <= 6 ==> r == PhaseDetails[n - 1].1
    ensures !(1 <= n <= 6) ==> r == NoDescription
  {
    if 1 <= n <= |PhaseDetails| then PhaseDetails[n - 1].1 else NoDescription
  }

  /** Exactly the six known phases have a description. */
  lemma DescriptionKnownIff(n: int)
    ensures PhaseDescription(n) != NoDescription <==> 1 <= n <= 6
  {
  }

  /** A CSV row: its keys in order, each with a string value or `null`. */
  type Row = seq<(string, Option<string>)>

  function FieldKey(field: (string, Option<string>)): string {
    field.0
  }

  function RowKeys(row: Row): seq<string> {
    Project(row, FieldKey)
  }

  /** The keys of every row, row after row. */
  function AllKeys(data: seq<Row>): seq<string> {
    if data == [] then [] else AllKeys(data[..|data| - 1]) + RowKeys(data[|data| - 1])
  }

  /** `row[key]`: `None` for a missing key or a `null` value. */
  function Value(row: Row, key: string): (r: Option<string>)
    ensures r.Some? ==> exists i :: 0 <= i < |row| && row[i] == (key, r)
  {
    if row == [] then None
    else if row[0].0 == key then row[0].1
    else
      var r := Value(row[1..], key);
      assert r.Some? ==> exists i :: 0 <= i < |row[1..]| && row[1..][i] == (key, r);
      r
  }

  /** Every `"` doubled (`replace(/"/g, '""')`). */
  function Escape(s: string): (r: string)
    ensures |r| >= |s|
  {
    if s == [] then []
    else (if s[0] == '"' then "\"\"" else [s[0]]) + Escape(s[1..])
  }

  /** Reading a quoted field back: every doubled `"` becomes one. */
  function Unescape(s: string): string
    decreases |s|
  {
    if |s| >= 2 && s[0] == '"' && s[1] == '"' then "\"" + Unescape(s[2..])
    else if s == [] then []
    else [s[0]] + Unescape(s[1..])
  }

  /** Escaping loses nothing: reading the field back gives the value. */
  lemma {:induction false} EscapeRoundTrip(s: string)
    ensures Unescape(Escape(s)) == s
  {
    if s != [] {
      EscapeRoundTrip(s[1..]);
      var e := Escape(s);
      if s[0] == '"' {
        assert e == "\"\"" + Escape(s[1..]);
        assert e[2..] == Escape(s[1..]);
      } else {
        assert e == [s[0]] + Escape(s[1..]);
        assert e[1..] == Escape(s[1..]);
      }
    }
  }

  /** An escaped value has no `"` on its own. */
  lemma {:induction false} EscapePairsQuotes(s: string, i: nat)
    requires i < |Escape(s)| && Escape(s)[i] == '"'
    ensures (i + 1 < |Escape(s)| && Escape(s)[i + 1] == '"') || (i > 0 && Escape(s)[i - 1] == '"')
  {
    var e := Escape(s);
    var head := if s[0] == '"' then "\"\"" else [s[0]];
    assert e == head + Escape(s[1..]);
    if i >= |head| {
      EscapePairsQuotes(s[1..], i - |head|);
    }
  }

  /** One field: the escaped value in quotes, empty for `null` or a missing key. */
  function Field(row: Row, key: string): string {
    "\"" + Escape(Value(row, key).GetOr("")) + "\""
  }

  /** The fields of a row, one per header key and in header order. */
  function Fields(header: seq<string>, row: Row): (r: seq<string>)
    ensures |r| == |header| && forall i :: 0 <= i < |header| ==> r[i] == Field(row, header[i])
  {
    seq(|header|, i requires 0 <= i < |header| => Field(row, header[i]))
  }

  /** The lines of the export: the header, unquoted, then one line per row. */
  function CsvLines(header: seq<string>, data: seq<Row>): (r: seq<string>)
    ensures |r| == |data| + 1 && r[0] == Join(header, ",")
    ensures forall i :: 0 <= i < |data| ==> r[i + 1] == Join(Fields(header, data[i]), ",")
  {
    [Join(header, ",")] + seq(|data|, i requires 0 <= i < |data| => Join(Fields(header, data[i]), ","))
  }

  /** The header of the export: each key once, in the order it first appears (a `Set` filled row by row). */
  method CsvHeader(data: seq<Row>) returns (header: seq<string>)
    ensures header == Dedup(AllKeys(data))
  {
    header := [];
    var i := 0;
    while i < |data|
      invariant 0 <= i <= |data|
      invariant header == Dedup(AllKeys(data[..i]))
    {
      header := AddKeys(header, AllKeys(data[..i]), RowKeys(data[i]));
      assert data[..i + 1][..i] == data[..i];
      i := i + 1;
    }
    assert data[..i] == data;
  }

  /** `Object.keys(row).forEach(key => allKeys.add(key))` on the keys seen so far. */
  method AddKeys(header: seq<string>, seen: seq<string>, keys: seq<string>) returns (r: seq<string>)
    requires header == Dedup(seen)
    ensures r == Dedup(seen + keys)
  {
    r := header;
    var j := 0;
    assert seen + keys[..0] == seen;
    while j < |keys|
      invariant 0 <= j <= |keys|
      invariant r == Dedup(seen + keys[..j])
    {
      AddKeyStep(seen, keys, j, r);
      if keys[j] !in r {
        r := r + [keys[j]];
      }
      j := j + 1;
    }
    assert keys[..j] == keys;
  }

  /** One more key seen: it joins the header unless it is there already. */
  lemma AddKeyStep(seen: seq<string>, keys: seq<string>, j: nat, r: seq<string>)
    requires j < |keys| && r == Dedup(seen + keys[..j])
    ensures Dedup(seen + keys[..j + 1]) == if keys[j] in r then r else r + [keys[j]]
  {
    assert seen + keys[..j + 1] == (seen + keys[..j]) + [keys[j]];
    DedupSnoc(seen + keys[..j], keys[j]);
  }

  /** Adding a value to a deduplicated list appends it unless it is there already. */
  lemma DedupSnoc(s: seq<string>, x: string)
    ensures Dedup(s + [x]) == if x in Dedup(s) then Dedup(s) else Dedup(s) + [x]
  {
    assert (s + [x])[..|s + [x]| - 1] == s;
  }

  /** `exportToCSV(data)`: nothing for no data; otherwise the lines joined with CRLF. */
  method ExportToCsv(data: seq<Row>) returns (csv: Option<string>)
    ensures data == [] ==> csv.None?
    ensures data != [] ==> csv == Some(Join(CsvLines(Dedup(AllKeys(data)), data), "\r\n"))
  {
    if |data| == 0 {
      return None;
    }
    var header := CsvHeader(data);
    var csvRows := seq(|data|, i requires 0 <= i < |data| => Join(Fields(header, data[i]), ","));
    csvRows := [Join(header, ",")] + csvRows;
    csv := Some(Join(csvRows, "\r\n"));
  }

  /** The header holds every key of every row exactly once. */
  lemma {:induction false} AllKeysOfRow(data: seq<Row>, i: nat, k: nat)
    requires i < |data| && k < |data[i]|
    ensures data[i][k].0 in AllKeys(data)
  {
    var init := data[..|data| - 1];
    if i == |data| - 1 {
      assert RowKeys(data[i])[k] == data[i][k].0;
    } else {
      assert init[i] == data[i];
      AllKeysOfRow(init, i, k);
    }
  }

  lemma HeaderCoversRows(data: seq<Row>, i: nat, k: nat)
    requires i < |data| && k < |data[i]|
    ensures data[i][k].0 in Dedup(AllKeys(data))
    ensures Distinct(Dedup(AllKeys(data)))
  {
    AllKeysOfRow(data, i, k);
  }
}
