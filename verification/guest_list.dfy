/**
  The guest-list dialog (src/components/GuestListModal.tsx): attending
  responses flattened into one entry per person and sorted by name, then
  exported as newline-separated text and as CSV.
*/
module GuestList {
  import opened Types
  import opened Strings
  import opened Seqs

  datatype GuestStatus = Attending | Declined

  /** One person on the list: a respondent, or a companion tagged with the
      respondent's name. */
  datatype FlatGuest = FlatGuest(name: string, isMain: bool, mainGuestName: Option<string>, status: GuestStatus)

  /** `name.trim()` is truthy: by the contract of `Trim`, the trimmed string
      is empty exactly when every character is whitespace. */
  predicate NonBlank(s: string) {
    !IsBlank(s)
  }

  /** The companion entries of one response: one per name that is not blank,
      in order, each tagged with the respondent's name. */
  function CompanionEntries(names: seq<string>, primary: string): (r: seq<FlatGuest>)
    ensures |r| == Count(names, NonBlank)
    ensures forall i :: 0 <= i < |r| ==>
              && r[i] == FlatGuest(r[i].name, false, Some(primary), Attending)
              && NonBlank(r[i].name) && r[i].name in names
    decreases |names|
  {
    if |names| == 0 then []
    else
      var head, rest := names[0], CompanionEntries(names[1..], primary);
      assert names == [head] + names[1..];
      if NonBlank(head) then [FlatGuest(head, false, Some(primary), Attending)] + rest
      else rest
  }

  /** The companion entries name exactly the non-blank companions, in order
      and with repetitions: no name is dropped or listed twice. */
  lemma {:induction false} CompanionNames(names: seq<string>, primary: string)
    ensures Names(CompanionEntries(names, primary)) == Filter(names, NonBlank)
    decreases |names|
  {
    if |names| > 0 {
      CompanionNames(names[1..], primary);
      var rest := CompanionEntries(names[1..], primary);
      if NonBlank(names[0]) {
        var g := FlatGuest(names[0], false, Some(primary), Attending);
        assert Names([g] + rest) == [names[0]] + Names(rest);
      }
    }
  }

  /** What one response contributes: nothing if declined; otherwise the
      respondent, then the companions. */
  function EntriesOf(r: RSVPRecord): seq<FlatGuest> {
    if r.data.attending == Yes then
      [FlatGuest(r.data.guestName, true, None, Attending)] + CompanionEntries(r.data.guestNames, r.data.guestName)
    else []
  }

  /** Number of non-blank companion names over the attending responses. */
  function CompanionTotal(rs: seq<RSVPRecord>): nat
    decreases |rs|
  {
    if |rs| == 0 then 0
    else (if IsYes(rs[0]) then Count(rs[0].data.guestNames, NonBlank) else 0) + CompanionTotal(rs[1..])
  }

  /** The list before sorting: one entry per attending respondent plus one
      per non-blank companion name; every entry is attending, and an entry
      names a respondent exactly when it is a primary one. */
  function Flatten(rs: seq<RSVPRecord>): (r: seq<FlatGuest>)
    ensures |r| == Count(rs, IsYes) + CompanionTotal(rs)
    ensures forall i :: 0 <= i < |r| ==> r[i].status == Attending && (r[i].isMain <==> r[i].mainGuestName.None?)
    decreases |rs|
  {
    if |rs| == 0 then [] else EntriesOf(rs[0]) + Flatten(rs[1..])
  }

  /** The entry came from this response: it is the respondent, or one of the
      respondent's non-blank companion names. */
  predicate FromRecord(g: FlatGuest, rec: RSVPRecord) {
    || (g.isMain && g.name == rec.data.guestName)
    || (!g.isMain && g.mainGuestName == Some(rec.data.guestName) && g.name in rec.data.guestNames && NonBlank(g.name))
  }

  /** Every entry comes from an attending response. */
  lemma {:induction false} FlattenProvenance(rs: seq<RSVPRecord>, g: FlatGuest)
    requires g in Flatten(rs)
    ensures exists rec :: rec in rs && IsYes(rec) && FromRecord(g, rec)
    decreases |rs|
  {
    if g in EntriesOf(rs[0]) {
      assert rs[0] in rs;
      if !g.isMain {
        var cs := CompanionEntries(rs[0].data.guestNames, rs[0].data.guestName);
        var i :| 0 <= i < |EntriesOf(rs[0])| && EntriesOf(rs[0])[i] == g;
        assert i > 0 && cs[i - 1] == g;
      }
    } else {
      FlattenProvenance(rs[1..], g);
      var rec :| rec in rs[1..] && IsYes(rec) && FromRecord(g, rec);
      assert rec in rs;
    }
  }

  /** Every attending respondent is on the list as a primary entry. */
  lemma {:induction false} PrimaryListed(rs: seq<RSVPRecord>, rec: RSVPRecord)
    requires rec in rs && IsYes(rec)
    ensures FlatGuest(rec.data.guestName, true, None, Attending) in Flatten(rs)
    decreases |rs|
  {
    if rs[0] == rec {
      assert EntriesOf(rec)[0] == FlatGuest(rec.data.guestName, true, None, Attending);
    } else {
      PrimaryListed(rs[1..], rec);
    }
  }

  /** Every non-blank companion of an attending respondent is on the list,
      tagged with that respondent's name. */
  lemma {:induction false} CompanionListed(rs: seq<RSVPRecord>, rec: RSVPRecord, n: string)
    requires rec in rs && IsYes(rec)
    requires n in rec.data.guestNames && NonBlank(n)
    ensures FlatGuest(n, false, Some(rec.data.guestName), Attending) in Flatten(rs)
    decreases |rs|
  {
    if rs[0] == rec {
      var cs := CompanionEntries(rec.data.guestNames, rec.data.guestName);
      CompanionNames(rec.data.guestNames, rec.data.guestName);
      assert n in Filter(rec.data.guestNames, NonBlank);
      var i :| 0 <= i < |cs| && Names(cs)[i] == n;
      assert cs[i] == FlatGuest(n, false, Some(rec.data.guestName), Attending);
      assert EntriesOf(rec)[i + 1] == cs[i];
    } else {
      CompanionListed(rs[1..], rec, n);
    }
  }

  function IsPrimary(g: FlatGuest): bool {
    g.isMain
  }

  /** Each attending response contributes exactly one primary entry. */
  lemma {:induction false} OnePrimaryPerAttendingResponse(rs: seq<RSVPRecord>)
    ensures Count(Flatten(rs), IsPrimary) == Count(rs, IsYes)
    decreases |rs|
  {
    if |rs| > 0 {
      OnePrimaryPerAttendingResponse(rs[1..]);
      CountAppend(EntriesOf(rs[0]), Flatten(rs[1..]), IsPrimary);
      if IsYes(rs[0]) {
        var cs := CompanionEntries(rs[0].data.guestNames, rs[0].data.guestName);
        var head := [FlatGuest(rs[0].data.guestName, true, None, Attending)];
        CountAppend(head, cs, IsPrimary);
        NoPrimaryCompanions(cs);
        assert head[1..] == [];
      }
    }
  }

  lemma {:induction false} NoPrimaryCompanions(cs: seq<FlatGuest>)
    requires forall i :: 0 <= i < |cs| ==> !cs[i].isMain
    ensures Count(cs, IsPrimary) == 0
    decreases |cs|
  {
    if |cs| > 0 {
      NoPrimaryCompanions(cs[1..]);
    }
  }

  /** Flattening works response by response. */
  lemma {:induction false} FlattenAppend(a: seq<RSVPRecord>, b: seq<RSVPRecord>)
    ensures Flatten(a + b) == Flatten(a) + Flatten(b)
    decreases |a|
  {
    if |a| == 0 {
      assert a + b == b;
    } else {
      assert (a + b)[1..] == a[1..] + b;
      FlattenAppend(a[1..], b);
    }
  }

  /** Declined responses contribute nothing: dropping them leaves the list as
      it was. */
  lemma {:induction false} FlattenIgnoresDeclined(rs: seq<RSVPRecord>)
    ensures Flatten(Filter(rs, IsYes)) == Flatten(rs)
    decreases |rs|
  {
    if |rs| > 0 {
      FlattenIgnoresDeclined(rs[1..]);
      if IsYes(rs[0]) {
        assert Filter(rs, IsYes) == [rs[0]] + Filter(rs[1..], IsYes);
        assert ([rs[0]] + Filter(rs[1..], IsYes))[1..] == Filter(rs[1..], IsYes);
      }
    }
  }

  /** Non-decreasing by name. */
  predicate SortedByName(l: seq<FlatGuest>) {
    forall i, j :: 0 <= i < j < |l| ==> StrLe(l[i].name, l[j].name)
  }

  /** Places `g` before the first entry whose name is not smaller. */
  function InsertByName(g: FlatGuest, l: seq<FlatGuest>): (r: seq<FlatGuest>)
    requires SortedByName(l)
    ensures SortedByName(r)
    ensures multiset(r) == multiset(l) + multiset{g}
    decreases |l|
  {
    if |l| == 0 then [g]
    else if StrLe(g.name, l[0].name) then
      InsertFront(g, l);
      [g] + l
    else
      var rest := InsertByName(g, l[1..]);
      StrLeTotal(g.name, l[0].name);
      assert l == [l[0]] + l[1..];
      InsertAfterHead(g, l, rest);
      [l[0]] + rest
  }

  lemma InsertFront(g: FlatGuest, l: seq<FlatGuest>)
    requires SortedByName(l) && |l| > 0 && StrLe(g.name, l[0].name)
    ensures SortedByName([g] + l)
  {
    forall j | 0 < j < |l| + 1 ensures StrLe(([g] + l)[0].name, ([g] + l)[j].name) {
      if j > 1 {
        StrLeTransitive(g.name, l[0].name, l[j - 1].name);
      }
    }
  }

  lemma InsertAfterHead(g: FlatGuest, l: seq<FlatGuest>, rest: seq<FlatGuest>)
    requires SortedByName(l) && |l| > 0 && StrLe(l[0].name, g.name)
    requires SortedByName(rest) && multiset(rest) == multiset(l[1..]) + multiset{g}
    ensures SortedByName([l[0]] + rest)
  {
    var r := [l[0]] + rest;
    forall j | 0 < j < |r| ensures StrLe(r[0].name, r[j].name) {
      assert r[j] in multiset(rest);
      if r[j] != g {
        assert r[j] in multiset(l[1..]);
        var k :| 0 <= k < |l[1..]| && l[1..][k] == r[j];
        assert l[k + 1] == r[j];
      }
    }
  }

  /** `list.sort((a, b) => a.name.localeCompare(b.name))`, with the locale
      collation replaced by code-point order: a permutation of the input,
      non-decreasing by name. */
  function SortByName(l: seq<FlatGuest>): (r: seq<FlatGuest>)
    ensures SortedByName(r)
    ensures multiset(r) == multiset(l)
    ensures |r| == |l|
    decreases |l|
  {
    if |l| == 0 then []
    else
      assert l == [l[0]] + l[1..];
      InsertByName(l[0], SortByName(l[1..]))
  }

  /** The memoised `attendingGuests` list. */
  function AttendingGuests(rs: seq<RSVPRecord>): (r: seq<FlatGuest>)
    ensures SortedByName(r)
    ensures multiset(r) == multiset(Flatten(rs))
    ensures |r| == Count(rs, IsYes) + CompanionTotal(rs)
  {
    SortByName(Flatten(rs))
  }

  function Names(gs: seq<FlatGuest>): (r: seq<string>)
    ensures |r| == |gs| && forall i :: 0 <= i < |gs| ==> r[i] == gs[i].name
  {
    seq(|gs|, i requires 0 <= i < |gs| => gs[i].name)
  }

  /** The clipboard text: the names joined by newlines. Splitting it at
      newlines gives back the names, provided there is at least one and
      none contains a newline. */
  function CopyText(gs: seq<FlatGuest>): (t: string)
    ensures |gs| == 0 ==> t == ""
    ensures |gs| >= 1 && (forall i :: 0 <= i < |gs| ==> '\n' !in gs[i].name) ==>
              Split(t, '\n') == Names(gs)
  {
    var ns := Names(gs);
    if |gs| >= 1 && forall i :: 0 <= i < |gs| ==> '\n' !in gs[i].name then
      assert forall i :: 0 <= i < |ns| ==> '\n' !in ns[i];
      SplitJoin(ns, '\n');
      Join(ns, "\n")
    else
      Join(ns, "\n")
  }

  /** The copied text ends with the last name: there is no trailing newline. */
  lemma CopyTextEndsWithLastName(gs: seq<FlatGuest>)
    requires |gs| >= 1
    ensures var t, last := CopyText(gs), gs[|gs| - 1].name; |t| >= |last| && t[|t| - |last|..] == last
  {
    JoinEndsWithLast(Names(gs), "\n");
  }

  lemma {:induction false} JoinEndsWithLast(xs: seq<string>, sep: string)
    requires |xs| >= 1
    ensures var t, last := Join(xs, sep), xs[|xs| - 1]; |t| >= |last| && t[|t| - |last|..] == last
    decreases |xs|
  {
    if |xs| > 1 {
      JoinEndsWithLast(xs[1..], sep);
    }
  }

  const CsvHeaderLine := "Име,Тип,Основен Гост"
  const PrimaryTag := "Основен"
  const CompanionTag := "Придружител"
  const NoPrimaryName := "-"

  /** A name with a comma is wrapped in double quotes; any other is written
      as is. Embedded quotes are not escaped. */
  function CsvField(s: string): (r: string)
    ensures ',' in s ==> r == ['"'] + s + ['"']
    ensures ',' !in s ==> r == s
  {
    if ',' in s then ['"'] + s + ['"'] else s
  }

  /** The type column. */
  function TypeTag(g: FlatGuest): (t: string)
    ensures t == PrimaryTag <==> g.isMain
    ensures t == CompanionTag <==> !g.isMain
  {
    if g.isMain then PrimaryTag else CompanionTag
  }

  /** The third column: the respondent's name, or "-" when there is none. */
  function PrimaryColumn(g: FlatGuest): string {
    OrElse(g.mainGuestName, NoPrimaryName)
  }

  /** One CSV line, without its newline. */
  function CsvLine(g: FlatGuest): string {
    CsvField(g.name) + "," + TypeTag(g) + "," + CsvField(PrimaryColumn(g))
  }

  function CsvRows(gs: seq<FlatGuest>): string
    decreases |gs|
  {
    if |gs| == 0 then "" else CsvLine(gs[0]) + "\n" + CsvRows(gs[1..])
  }

  /** The downloaded file's text (after the byte-order mark): the header
      line, then exactly one newline-terminated line per entry, in list
      order, and nothing else, provided no name contains a newline. */
  function Csv(gs: seq<FlatGuest>): (r: string)
    ensures |r| > |CsvHeaderLine| && r[..|CsvHeaderLine| + 1] == CsvHeaderLine + "\n"
    ensures (forall i :: 0 <= i < |gs| ==> NoNewlines(gs[i])) ==>
              Split(r, '\n') == [CsvHeaderLine] + CsvLines(gs) + [""]
  {
    var r := CsvHeaderLine + "\n" + CsvRows(gs);
    if forall i :: 0 <= i < |gs| ==> NoNewlines(gs[i]) then
      CsvRowsShape(gs);
      HeaderHasNoNewline();
      RowsStep(CsvHeaderLine, CsvRows(gs), CsvLines(gs));
      r
    else
      r
  }

  function CsvLines(gs: seq<FlatGuest>): (r: seq<string>)
    ensures |r| == |gs|
    decreases |gs|
  {
    if |gs| == 0 then [] else [CsvLine(gs[0])] + CsvLines(gs[1..])
  }

  predicate NoNewlines(g: FlatGuest) {
    '\n' !in g.name && '\n' !in PrimaryColumn(g)
  }

  lemma CsvLineHasNoNewline(g: FlatGuest)
    requires NoNewlines(g)
    ensures '\n' !in CsvLine(g)
  {
    var a, t, b := CsvField(g.name), TypeTag(g), CsvField(PrimaryColumn(g));
    assert '\n' !in a && '\n' !in t && '\n' !in b;
    assert CsvLine(g) == a + "," + t + "," + b;
  }

  lemma {:induction false} CsvRowsShape(gs: seq<FlatGuest>)
    requires forall i :: 0 <= i < |gs| ==> NoNewlines(gs[i])
    ensures Split(CsvRows(gs), '\n') == CsvLines(gs) + [""]
    decreases |gs|
  {
    if |gs| > 0 {
      CsvRowsShape(gs[1..]);
      CsvLineHasNoNewline(gs[0]);
      RowsStep(CsvLine(gs[0]), CsvRows(gs[1..]), CsvLines(gs[1..]));
    }
  }

  lemma HeaderHasNoNewline()
    ensures '\n' !in CsvHeaderLine
  {
  }

  lemma RowsStep(line: string, rows: string, lines: seq<string>)
    requires '\n' !in line && Split(rows, '\n') == lines + [""]
    ensures Split(line + "\n" + rows, '\n') == [line] + lines + [""]
  {
    SplitAtFirstSeparator(line, '\n', rows);
  }

  /** Position of the first `c` in `s`, or `|s|` if there is none. */
  function IndexOf(s: string, c: char): (k: nat)
    ensures k <= |s| && c !in s[..k]
    ensures k < |s| ==> s[k] == c
    decreases |s|
  {
    if |s| == 0 then 0
    else if s[0] == c then 0
    else
      var k := IndexOf(s[1..], c);
      assert s[..k + 1] == [s[0]] + s[1..][..k];
      k + 1
  }

  lemma {:induction false} IndexOfFirst(x: string, c: char, y: string)
    requires c !in x
    ensures IndexOf(x + [c] + y, c) == |x|
    decreases |x|
  {
    if |x| > 0 {
      assert (x + [c] + y)[1..] == x[1..] + [c] + y;
      IndexOfFirst(x[1..], c, y);
    }
  }

  /** A reader for one CSV line: a field opening with a double quote runs to
      the next double quote, any other field runs to the next comma. */
  function ParseLine(s: string): (r: seq<string>)
    ensures |r| >= 1
    decreases |s|, 1
  {
    if |s| > 0 && s[0] == '"' then ParseQuoted(s[1..]) else ParsePlain(s)
  }

  /** The rest of a line after an opening double quote. A missing closing
      quote makes the rest of the line the field. */
  function ParseQuoted(s: string): (r: seq<string>)
    ensures |r| >= 1
    decreases |s|, 0
  {
    var j := IndexOf(s, '"');
    if j == |s| then [s]
    else
      var rest := s[j + 1..];
      if |rest| == 0 then [s[..j]]
      else if rest[0] == ',' then [s[..j]] + ParseLine(rest[1..])
      else [s[..j]] + ParseLine(rest)
  }

  /** A line whose first field is not quoted. */
  function ParsePlain(s: string): (r: seq<string>)
    ensures |r| >= 1
    decreases |s|, 0
  {
    var k := IndexOf(s, ',');
    if k == |s| then [s] else [s[..k]] + ParseLine(s[k + 1..])
  }

  /** A field followed by more fields reads back as itself, provided it holds
      no double quote. */
  lemma ParseField(x: string, rest: string)
    requires '"' !in x
    ensures ParseLine(CsvField(x) + "," + rest) == [x] + ParseLine(rest)
  {
    if ',' in x {
      assert CsvField(x) + "," + rest == ['"'] + (x + ['"'] + ([','] + rest));
      ParseQuotedField(x, rest);
    } else {
      assert CsvField(x) + "," + rest == x + ([','] + rest);
      ParsePlainField(x, rest);
    }
  }

  lemma ParseQuotedField(x: string, rest: string)
    requires '"' !in x
    ensures ParseLine(['"'] + (x + ['"'] + ([','] + rest))) == [x] + ParseLine(rest)
  {
    var u := x + ['"'] + ([','] + rest);
    assert (['"'] + u)[1..] == u;
    IndexOfFirst(x, '"', [','] + rest);
    assert u[..|x|] == x;
    assert u[|x| + 1..] == [','] + rest;
    assert ([','] + rest)[1..] == rest;
  }

  lemma ParsePlainField(x: string, rest: string)
    requires '"' !in x && ',' !in x
    ensures ParseLine(x + ([','] + rest)) == [x] + ParseLine(rest)
  {
    var s := x + ([','] + rest);
    assert x + [','] + rest == s;
    IndexOfFirst(x, ',', rest);
    if |x| > 0 {
      assert s[0] == x[0];
    }
    assert s[..|x|] == x;
    assert s[|x| + 1..] == rest;
  }

  /** A last field reads back as itself, provided it holds no double quote. */
  lemma ParseLastField(x: string)
    requires '"' !in x
    ensures ParseLine(CsvField(x)) == [x]
  {
    if ',' in x {
      var u := x + ['"'];
      assert CsvField(x) == ['"'] + u;
      assert (['"'] + u)[1..] == u;
      assert x + ['"'] + [] == u;
      IndexOfFirst(x, '"', []);
      assert u[..|x|] == x;
      assert u[|x| + 1..] == [];
    } else {
      assert IndexOf(x, ',') == |x|;
    }
  }

  /** A middle field that needs no quoting and a last field read back. */
  lemma ParseLastTwo(t: string, p: string)
    requires ',' !in t && '"' !in t && '"' !in p
    ensures ParseLine(t + "," + CsvField(p)) == [t, p]
  {
    ParseLastField(p);
    assert CsvField(t) == t;
    ParseField(t, CsvField(p));
  }

  /** Every CSV line reads back as its three columns, provided the name and
      the respondent's name hold no double quote; the type column says
      whether the entry is a respondent. */
  lemma CsvLineRoundTrip(g: FlatGuest)
    requires '"' !in g.name && '"' !in PrimaryColumn(g)
    ensures ParseLine(CsvLine(g)) == [g.name, TypeTag(g), PrimaryColumn(g)]
  {
    var t, p := TypeTag(g), PrimaryColumn(g);
    var tail := t + "," + CsvField(p);
    assert ',' !in t && '"' !in t;
    ParseLastTwo(t, p);
    ParseField(g.name, tail);
    assert CsvLine(g) == CsvField(g.name) + "," + tail;
  }

  /** Because quotes are not escaped, a name holding both a quote and a comma
      does not read back: `a",b` is written as `"a",b"` and read as two
      fields. */
  lemma UnescapedQuoteMisread()
    ensures ParseLine(CsvField("a\",b")) == ["a", "b\""]
  {
    var s := CsvField("a\",b");
    assert s == "\"a\",b\"";
    var u := s[1..];
    assert u == "a\",b\"";
    IndexOfFirst("a", '"', ",b\"");
    assert u[..1] == "a";
    assert u[2..] == ",b\"";
    assert u[2..][1..] == "b\"";
    IndexOfFirst("b\"", ',', []);
    assert ParseLine("b\"") == ["b\""];
  }

  /** The two-response example: A (with companion B) and C give A, B, C, with
      A and C as respondents. */
  lemma FlattenExample()
    ensures var rs := [RSVPRecord(RSVPFormData("A", Yes, 2, ["B"], ""), "1", 0),
                       RSVPRecord(RSVPFormData("C", Yes, 1, [], ""), "2", 0)];
            AttendingGuests(rs) == [FlatGuest("A", true, None, Attending),
                                    FlatGuest("B", false, Some("A"), Attending),
                                    FlatGuest("C", true, None, Attending)]
  {
    var a := FlatGuest("A", true, None, Attending);
    var b := FlatGuest("B", false, Some("A"), Attending);
    var c := FlatGuest("C", true, None, Attending);
    var r1 := RSVPRecord(RSVPFormData("A", Yes, 2, ["B"], ""), "1", 0);
    var r2 := RSVPRecord(RSVPFormData("C", Yes, 1, [], ""), "2", 0);
    assert !IsWhitespace('B');
    assert Trim("B") != "";
    assert CompanionEntries(["B"], "A") == [b];
    assert EntriesOf(r1) == [a, b];
    assert EntriesOf(r2) == [c];
    assert [r1, r2][1..] == [r2];
    assert Flatten([r1, r2]) == [a, b, c];
    assert [a, b, c][1..] == [b, c] && [b, c][1..] == [c];
    assert StrLe("B", "C") && StrLe("A", "B");
    assert InsertByName(b, [c]) == [b, c];
    assert InsertByName(a, [b, c]) == [a, b, c];
  }
}
