/** Query-string parsing for the `find` action: `parseFilters`,
    `parsePagination` and `parseSort` (packages/unstrap/src/request-parser.ts). */
module RequestParser {
  import opened Values
  import opened Text
  import opened Pagination

  /** A query string's parameters, each read as a string. */
  type Query = map<string, string>

  /** `parseFilters(query)`: a stub that always yields an empty object. */
  function ParseFilters(query: Query): (filters: Value)
    ensures filters.Obj? && |filters.entries| == 0
  {
    Obj([])
  }

  predicate IsDigit(c: char) {
    '0' <= c <= '9'
  }

  /** The number of leading decimal digits of `s`. */
  function LeadingDigits(s: string): (k: nat)
    ensures k <= |s|
    ensures forall i :: 0 <= i < k ==> IsDigit(s[i])
    ensures k < |s| ==> !IsDigit(s[k])
  {
    if |s| == 0 || !IsDigit(s[0]) then 0 else 1 + LeadingDigits(s[1..])
  }

  /** The value of a string of decimal digits. */
  function DigitsValue(s: string): nat
    requires forall i :: 0 <= i < |s| ==> IsDigit(s[i])
  {
    if |s| == 0 then 0
    else
      assert IsDigit(s[|s| - 1]);
      DigitsValue(s[..|s| - 1]) * 10 + (s[|s| - 1] as int - '0' as int)
  }

  /** `parseInt(s)` for an optional sign followed by decimal digits; the
      digits end at the first other character, and no digit at all is NaN. */
  function ParseInt(s: string): (r: Num)
    ensures r.NaN? || r.Int?
  {
    var negative := |s| > 0 && s[0] == '-';
    var rest := if |s| > 0 && (s[0] == '-' || s[0] == '+') then s[1..] else s;
    var k := LeadingDigits(rest);
    if k == 0 then NaN
    else
      var v: int := DigitsValue(rest[..k]);
      Int(if negative then -v else v)
  }

  /** `query[key] || fallback`: an absent or empty parameter falls back. */
  function OrDefault(query: Query, key: string, fallback: string): string {
    if key in query && query[key] != "" then query[key] else fallback
  }

  const PageKey := "pagination[page]"
  const PageSizeKey := "pagination[pageSize]"

  datatype PaginationParams = PaginationParams(page: Num, pageSize: Num)

  /** `parsePagination(query)`. */
  function ParsePagination(query: Query): (p: PaginationParams)
    ensures PageKey !in query || query[PageKey] == "" ==> p.page == Int(1)
    ensures PageSizeKey !in query || query[PageSizeKey] == "" ==> p.pageSize == Int(25)
    ensures PageKey in query && query[PageKey] != "" ==> p.page == ParseInt(query[PageKey])
    ensures PageSizeKey in query && query[PageSizeKey] != "" ==> p.pageSize == ParseInt(query[PageSizeKey])
  {
    assert ParseInt("1") == Int(1) by {
      assert LeadingDigits("1") == 1;
      assert "1"[..1] == "1";
    }
    assert ParseInt("25") == Int(25) by {
      assert LeadingDigits("25") == 2;
      assert "25"[..2] == "25";
      assert "25"[..1] == "2";
    }
    PaginationParams(ParseInt(OrDefault(query, PageKey, "1")), ParseInt(OrDefault(query, PageSizeKey, "25")))
  }

  /** A sort entry; `order` is `"asc"` or `"desc"`. */
  datatype SortEntry = SortEntry(field: string, order: string)

  /** One comma-separated piece of a sort parameter: a leading `-` means
      descending, and exactly one `-` is stripped. */
  function ParseSortItem(item: string): (e: SortEntry)
    ensures StartsWith(item, "-") ==> e == SortEntry(item[1..], "desc")
    ensures !StartsWith(item, "-") ==> e == SortEntry(item, "asc")
  {
    if StartsWith(item, "-") then SortEntry(item[1..], "desc") else SortEntry(item, "asc")
  }

  /** The piece that denotes a sort entry. */
  function EncodeSortItem(e: SortEntry): string {
    if e.order == "desc" then "-" + e.field else e.field
  }

  /** `parseSort(query)`. */
  function ParseSort(query: Query): (sorts: seq<SortEntry>)
    ensures "sort" !in query || query["sort"] == "" ==> sorts == []
    ensures "sort" in query && query["sort"] != "" ==>
      var parts := Split(query["sort"], ',');
      && |sorts| == |parts|
      && forall i :: 0 <= i < |parts| ==> sorts[i] == ParseSortItem(parts[i])
  {
    if "sort" !in query || query["sort"] == "" then []
    else
      var parts := Split(query["sort"], ',');
      seq(|parts|, i requires 0 <= i < |parts| => ParseSortItem(parts[i]))
  }

  /** Re-encoding a parsed piece gives the piece back. */
  lemma SortItemRoundTrip(item: string)
    ensures EncodeSortItem(ParseSortItem(item)) == item
  {
    if StartsWith(item, "-") {
      assert item == "-" + item[1..];
    }
  }

  /** Parsing an encoded entry gives the entry back exactly when the entry
      is descending or its field does not itself start with `-`. */
  lemma SortEntryRoundTrip(e: SortEntry)
    requires e.order == "asc" || e.order == "desc"
    ensures ParseSortItem(EncodeSortItem(e)) == e <==> e.order == "desc" || !StartsWith(e.field, "-")
  {
    if e.order == "desc" {
      var s := "-" + e.field;
      assert StartsWith(s, "-");
      assert s[1..] == e.field;
    }
  }

  /** Re-encoding every entry and joining with `,` reproduces any non-empty
      sort parameter. */
  lemma ParseSortRoundTrip(query: Query)
    requires "sort" in query && query["sort"] != ""
    ensures var sorts := ParseSort(query);
      Join(seq(|sorts|, i requires 0 <= i < |sorts| => EncodeSortItem(sorts[i])), ',') == query["sort"]
  {
    var s := query["sort"];
    var parts := Split(s, ',');
    var sorts := ParseSort(query);
    var encoded := seq(|sorts|, i requires 0 <= i < |sorts| => EncodeSortItem(sorts[i]));
    forall i | 0 <= i < |parts| ensures encoded[i] == parts[i] {
      SortItemRoundTrip(parts[i]);
    }
    assert encoded == parts;
    JoinSplit(s, ',');
  }

  /** Pagination reads only its two keys. */
  lemma PaginationReadsTwoKeys(q1: Query, q2: Query)
    requires PageKey in q1 <==> PageKey in q2
    requires PageSizeKey in q1 <==> PageSizeKey in q2
    requires PageKey in q1 ==> q1[PageKey] == q2[PageKey]
    requires PageSizeKey in q1 ==> q1[PageSizeKey] == q2[PageSizeKey]
    ensures ParsePagination(q1) == ParsePagination(q2)
  {
  }

  /** `parseInt` reads back the decimal text of a natural number. */
  lemma {:induction false} ParseIntOfDecimal(n: nat)
    ensures ParseInt(NatToString(n)) == Int(n)
  {
    var s := NatToString(n);
    AllDigits(n);
    assert s[0] != '-' && s[0] != '+';
    LeadingDigitsAll(s);
    assert s[..|s|] == s;
    DigitsValueOfDecimal(n);
  }

  lemma {:induction false} AllDigits(n: nat)
    ensures forall i :: 0 <= i < |NatToString(n)| ==> IsDigit(NatToString(n)[i])
  {
    if n >= 10 {
      AllDigits(n / 10);
    }
  }

  lemma {:induction false} LeadingDigitsAll(s: string)
    requires forall i :: 0 <= i < |s| ==> IsDigit(s[i])
    ensures LeadingDigits(s) == |s|
  {
    if |s| > 0 {
      LeadingDigitsAll(s[1..]);
    }
  }

  lemma {:induction false} DigitsValueOfDecimal(n: nat)
    ensures forall i :: 0 <= i < |NatToString(n)| ==> IsDigit(NatToString(n)[i])
    ensures DigitsValue(NatToString(n)) == n
  {
    AllDigits(n);
    var s := NatToString(n);
    if n >= 10 {
      DigitsValueOfDecimal(n / 10);
      assert s[..|s| - 1] == NatToString(n / 10);
      assert s[|s| - 1] == DigitChar(n % 10);
    }
  }
}
