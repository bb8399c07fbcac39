/** Interactive replacement of the repository allowlist (internal/setup/setup.go). */
module Allowlist {
  import opened Collections
  import opened Text
  import opened Config
  import opened PolicyEdits
  import Sorting

  /** A repository reported by the hosting service. */
  datatype Found = Found(fullName: string, name: string, isPrivate: bool)

  function SlashAt(s: string): (r: nat)
    ensures r <= |s| && (forall i :: 0 <= i < r ==> s[i] != '/') && (r < |s| ==> s[r] == '/')
  {
    if s == [] || s[0] == '/' then 0 else 1 + SlashAt(s[1..])
  }

  function OwnerOf(f: Found): string {
    f.fullName[..SlashAt(f.fullName)]
  }

  function NameOf(f: Found): string {
    var i := SlashAt(f.fullName);
    if i < |f.fullName| then f.fullName[i + 1..] else ""
  }

  /** Private, exactly one slash, both sides non-empty and free of separators, and the stated name agrees. */
  predicate WellFormed(f: Found) {
    && f.isPrivate && SlashAt(f.fullName) < |f.fullName| && '/' !in NameOf(f)
    && OwnerOf(f) != "" && NameOf(f) != "" && f.name == NameOf(f)
    && !ContainsAny(OwnerOf(f) + NameOf(f), "\\?#")
  }

  /** The same without parsing: private, and its full name is an owner, a slash and the stated name. */
  ghost predicate PrivateRepository(f: Found) {
    f.isPrivate && exists owner: string :: f.fullName == owner + "/" + f.name && Plain(owner) && Plain(f.name)
  }

  predicate Plain(s: string) {
    s != "" && forall i :: 0 <= i < |s| ==> s[i] != '/' && s[i] != '\\' && s[i] != '?' && s[i] != '#'
  }

  lemma {:induction false} SlashSplits(owner: string, name: string)
    requires '/' !in owner
    ensures SlashAt(owner + "/" + name) == |owner|
  {
    var s := owner + "/" + name;
    assert s[|owner|] == '/';
    assert forall i :: 0 <= i < |owner| ==> s[i] == owner[i] != '/';
  }

  lemma {:induction false} PlainMeans(owner: string, name: string)
    ensures Plain(owner) && Plain(name) <==>
              owner != "" && name != "" && '/' !in owner && '/' !in name && !ContainsAny(owner + name, "\\?#")
  {
    var both := owner + name;
    assert forall c: char :: c in "\\?#" <==> c == '\\' || c == '?' || c == '#';
    if owner != "" && name != "" && '/' !in owner && '/' !in name && !ContainsAny(both, "\\?#") {
      forall i | 0 <= i < |owner| ensures owner[i] !in "\\?#" { assert both[i] == owner[i]; }
      forall i | 0 <= i < |name| ensures name[i] !in "\\?#" { assert both[|owner| + i] == name[i]; }
    }
  }

  lemma {:induction false} WellFormedMeans(f: Found)
    ensures WellFormed(f) <==> PrivateRepository(f)
    ensures WellFormed(f) ==> f.fullName == OwnerOf(f) + "/" + NameOf(f)
  {
    hide Plain, ContainsAny, SlashAt;
    if WellFormed(f) {
      assert f.fullName == OwnerOf(f) + "/" + NameOf(f);
      PlainMeans(OwnerOf(f), NameOf(f));
    }
    if PrivateRepository(f) {
      var owner: string :| f.fullName == owner + "/" + f.name && Plain(owner) && Plain(f.name);
      PlainMeans(owner, f.name);
      OwnerAndName(f, owner);
    }
  }

  lemma {:induction false} OwnerAndName(f: Found, owner: string)
    requires '/' !in owner && f.fullName == owner + "/" + f.name
    ensures SlashAt(f.fullName) == |owner| < |f.fullName| && OwnerOf(f) == owner && NameOf(f) == f.name
  {
    SlashSplits(owner, f.name);
    hide SlashAt;
    assert f.fullName[..|owner|] == owner && f.fullName[|owner| + 1..] == f.name;
  }

  function FoundKey(f: Found): string {
    Lower(f.fullName)
  }

  // ---------------------------------------------------------------------------------------------
  // Discovery: merging the reported pages.

  predicate FoundOrder(a: Found, b: Found) {
    Sorting.StringLeq(FoundKey(a), FoundKey(b))
  }

  function Keys(found: seq<Found>): (r: set<string>)
    ensures forall key :: key in r <==> exists i :: 0 <= i < |found| && FoundKey(found[i]) == key
  {
    set i | 0 <= i < |found| :: FoundKey(found[i])
  }

  ghost predicate Apart(found: seq<Found>) {
    forall i, j :: 0 <= i < j < |found| ==> FoundKey(found[i]) != FoundKey(found[j])
  }

  ghost predicate AllWellFormed(found: seq<Found>) {
    forall i :: 0 <= i < |found| ==> WellFormed(found[i])
  }

  /** The items whose full name, up to case, has not occurred before. */
  ghost function FirstOfEach(items: seq<Found>): seq<Found> {
    if items == [] then []
    else
      var kept, last := FirstOfEach(items[..|items| - 1]), items[|items| - 1];
      if FoundKey(last) in Keys(kept) then kept else kept + [last]
  }

  ghost function Flat(pages: seq<seq<Found>>): seq<Found> {
    if pages == [] then [] else Flat(pages[..|pages| - 1]) + pages[|pages| - 1]
  }

  lemma {:induction false} KeysNext(found: seq<Found>, f: Found)
    ensures Keys(found + [f]) == Keys(found) + {FoundKey(f)}
  {
    hide FoundKey;
    var more := found + [f];
    forall key ensures key in Keys(more) <==> key in Keys(found) || key == FoundKey(f) {
      if key in Keys(found) {
        var i :| 0 <= i < |found| && FoundKey(found[i]) == key;
        assert FoundKey(more[i]) == key;
      }
      assert FoundKey(more[|found|]) == FoundKey(f);
    }
  }

  lemma {:induction false} FirstOfEachMeaning(items: seq<Found>)
    ensures Apart(FirstOfEach(items)) && Keys(FirstOfEach(items)) == Keys(items)
    ensures forall f :: f in FirstOfEach(items) <==> Leads(items, f)
  {
    if items != [] {
      hide FoundKey, Keys, Leads;
      var n := |items| - 1;
      var before, last := items[..n], items[n];
      FirstOfEachMeaning(before);
      KeysNext(before, last);
      KeysNext(FirstOfEach(before), last);
      assert items == before + [last];
      if FoundKey(last) !in Keys(FirstOfEach(before)) {
        ApartNext(FirstOfEach(before), last);
      }
      hide Apart;
      forall f ensures Leads(items, f) <==> Leads(before, f) || (f == last && FoundKey(f) !in Keys(before)) {
        LeadsNext(before, last, f);
      }
    }
  }

  /** `f` is at index `i`, and no earlier item has its name. */
  ghost predicate FirstAt(items: seq<Found>, i: nat, f: Found) {
    i < |items| && items[i] == f && FoundKey(f) !in Keys(items[..i])
  }

  ghost predicate Leads(items: seq<Found>, f: Found) {
    exists i :: 0 <= i < |items| && FirstAt(items, i, f)
  }

  lemma {:induction false} LeadsNext(before: seq<Found>, last: Found, f: Found)
    ensures Leads(before + [last], f) <==> Leads(before, f) || (f == last && FoundKey(f) !in Keys(before))
  {
    hide FoundKey, Keys;
    var items := before + [last];
    forall i | 0 <= i < |before| ensures FirstAt(items, i, f) <==> FirstAt(before, i, f) {
      assert items[..i] == before[..i];
    }
    assert items[..|before|] == before;
    assert FirstAt(items, |before|, f) <==> f == last && FoundKey(f) !in Keys(before);
  }

  lemma {:induction false} ApartNext(kept: seq<Found>, f: Found)
    requires Apart(kept) && FoundKey(f) !in Keys(kept)
    ensures Apart(kept + [f])
  {
    hide FoundKey;
    forall i | 0 <= i < |kept| ensures FoundKey(kept[i]) != FoundKey(f) {
      assert FoundKey(kept[i]) in Keys(kept);
    }
  }

  lemma {:induction false} FoundOrderIsTotal()
    ensures Sorting.TotalPreorder(FoundOrder)
  {
    Sorting.StringOrder();
    hide Sorting.StringLeq, FoundKey;
    forall a, b ensures FoundOrder(a, b) || FoundOrder(b, a) {
      assert Sorting.StringLeq(FoundKey(a), FoundKey(b)) || Sorting.StringLeq(FoundKey(b), FoundKey(a));
    }
    forall a, b, c | FoundOrder(a, b) && FoundOrder(b, c) ensures FoundOrder(a, c) {
      Sorting.StringLeqTransitive(FoundKey(a), FoundKey(b), FoundKey(c));
    }
  }

  lemma {:induction false} InsertKeepsApart(f: Found, found: seq<Found>)
    requires Apart([f] + found)
    ensures Apart(Sorting.Insert(FoundOrder, f, found))
    ensures forall x :: x in Sorting.Insert(FoundOrder, f, found) <==> x == f || x in found
  {
    hide FoundKey, FoundOrder;
    var all := [f] + found;
    if found != [] && !FoundOrder(f, found[0]) {
      var rest := found[1..];
      forall i, j | 0 <= i < j < |[f] + rest| ensures FoundKey(([f] + rest)[i]) != FoundKey(([f] + rest)[j]) {
        assert FoundKey(all[if i == 0 then 0 else i + 1]) != FoundKey(all[j + 1]);
      }
      InsertKeepsApart(f, rest);
      var tail := Sorting.Insert(FoundOrder, f, rest);
      forall j | 0 <= j < |tail| ensures FoundKey(found[0]) != FoundKey(tail[j]) {
        assert tail[j] in tail;
        assert all[0] == f && all[1] == found[0];
        if tail[j] != f {
          var k :| 0 <= k < |rest| && rest[k] == tail[j];
          assert all[k + 2] == tail[j];
        }
      }
      assert found == [found[0]] + rest;
    }
  }

  lemma {:induction false} SortKeepsApart(found: seq<Found>)
    requires Apart(found)
    ensures Apart(Sorting.Sort(FoundOrder, found))
    ensures forall x :: x in Sorting.Sort(FoundOrder, found) <==> x in found
  {
    hide FoundKey, FoundOrder, Sorting.Insert;
    if found != [] {
      var f, rest := found[0], found[1..];
      assert found == [f] + rest;
      forall i, j | 0 <= i < j < |rest| ensures FoundKey(rest[i]) != FoundKey(rest[j]) {
        assert FoundKey(found[i + 1]) != FoundKey(found[j + 1]);
      }
      SortKeepsApart(rest);
      var sorted := Sorting.Sort(FoundOrder, rest);
      var all := [f] + sorted;
      forall i, j | 0 <= i < j < |all| ensures FoundKey(all[i]) != FoundKey(all[j]) {
        if i == 0 {
          assert all[j] == sorted[j - 1] && sorted[j - 1] in sorted;
          var k :| 0 <= k < |rest| && rest[k] == all[j];
          assert FoundKey(found[0]) != FoundKey(found[k + 1]);
        } else {
          assert FoundKey(sorted[i - 1]) != FoundKey(sorted[j - 1]);
        }
      }
      InsertKeepsApart(f, sorted);
    }
  }

  ghost predicate AllPagesWellFormed(pages: seq<seq<Found>>) {
    forall p :: 0 <= p < |pages| ==> AllWellFormed(pages[p])
  }

  lemma {:induction false} NothingFound()
    ensures Keys([]) == {} && FirstOfEach([]) == [] && Flat([]) == []
  {
  }

  lemma {:induction false} FirstOfEachNext(items: seq<Found>, f: Found)
    ensures FirstOfEach(items + [f]) ==
            if FoundKey(f) in Keys(FirstOfEach(items)) then FirstOfEach(items) else FirstOfEach(items) + [f]
  {
    hide FoundKey, Keys;
    assert (items + [f])[..|items|] == items;
  }

  lemma {:induction false} FlatNext(pages: seq<seq<Found>>, page: seq<Found>)
    ensures Flat(pages + [page]) == Flat(pages) + page
  {
    assert (pages + [page])[..|pages|] == pages;
  }

  lemma {:induction false} AllPagesMean(pages: seq<seq<Found>>)
    ensures AllPagesWellFormed(pages) <==>
              forall p, i :: 0 <= p < |pages| && 0 <= i < |pages[p]| ==> PrivateRepository(pages[p][i])
  {
    hide WellFormed, PrivateRepository;
    forall p, i | 0 <= p < |pages| && 0 <= i < |pages[p]|
      ensures WellFormed(pages[p][i]) <==> PrivateRepository(pages[p][i])
    {
      WellFormedMeans(pages[p][i]);
    }
    if forall p, i :: 0 <= p < |pages| && 0 <= i < |pages[p]| ==> PrivateRepository(pages[p][i]) {
      forall p | 0 <= p < |pages| ensures AllWellFormed(pages[p]) {
      }
    }
  }

  /** Rejects the answer if any item is malformed; otherwise keeps the first item of each name and sorts. */
  method DiscoverRepositories(pages: seq<seq<Found>>) returns (ok: bool, found: seq<Found>)
    ensures ok <==> forall p, i :: 0 <= p < |pages| && 0 <= i < |pages[p]| ==> PrivateRepository(pages[p][i])
    ensures ok <==> AllPagesWellFormed(pages)
    ensures ok ==> found == Sorting.Sort(FoundOrder, FirstOfEach(Flat(pages)))
  {
    hide WellFormed, FoundKey, Keys, Sorting.Sort, FirstOfEach, Flat, FoundOrder;
    found := [];
    var seen: set<string> := {};
    NothingFound();
    AllPagesMean(pages);
    for p := 0 to |pages|
      invariant forall q :: 0 <= q < p ==> AllWellFormed(pages[q])
      invariant found == FirstOfEach(Flat(pages[..p])) && seen == Keys(found)
    {
      ghost var before := Flat(pages[..p]);
      assert before + pages[p][..0] == before;
      for i := 0 to |pages[p]|
        invariant forall j :: 0 <= j < i ==> WellFormed(pages[p][j])
        invariant found == FirstOfEach(before + pages[p][..i]) && seen == Keys(found)
      {
        var item := pages[p][i];
        if !WellFormed(item) {
          assert !AllWellFormed(pages[p]);
          return false, [];
        }
        assert before + pages[p][..i + 1] == before + pages[p][..i] + [item];
        FirstOfEachNext(before + pages[p][..i], item);
        KeysNext(found, item);
        var key := FoundKey(item);
        if key !in seen {
          seen := seen + {key};
          found := found + [item];
        }
      }
      assert pages[p][..|pages[p]|] == pages[p];
      FlatNext(pages[..p], pages[p]);
      assert pages[..p + 1] == pages[..p] + [pages[p]];
    }
    assert pages[..|pages|] == pages;
    found := Sorting.Sort(FoundOrder, found);
    ok := true;
  }

  lemma {:induction false} FlatWellFormed(pages: seq<seq<Found>>)
    requires AllPagesWellFormed(pages)
    ensures AllWellFormed(Flat(pages))
  {
    hide WellFormed;
    if pages != [] {
      FlatWellFormed(pages[..|pages| - 1]);
    }
  }

  /** What the operator is shown: well-formed items in name order, each reported name exactly once. */
  lemma {:induction false} DiscoveryMeaning(pages: seq<seq<Found>>)
    requires AllPagesWellFormed(pages)
    ensures var found := Sorting.Sort(FoundOrder, FirstOfEach(Flat(pages)));
            && AllWellFormed(found) && Apart(found) && Keys(found) == Keys(Flat(pages))
            && forall i, j :: 0 <= i < j < |found| ==>
                 Sorting.Before(Lower(found[i].fullName), Lower(found[j].fullName))
  {
    var kept := FirstOfEach(Flat(pages));
    var found := Sorting.Sort(FoundOrder, kept);
    FlatWellFormed(pages);
    FirstOfEachMeaning(Flat(pages));
    SortKeepsApart(kept);
    FoundOrderIsTotal();
    Sorting.SortSorts(FoundOrder, kept);
    SameMembersSameKeys(found, kept);
    hide WellFormed, FoundKey, Keys, Sorting.Sort, FoundOrder, FirstOfEach, Flat;
    forall i | 0 <= i < |found| ensures WellFormed(found[i]) {
      assert found[i] in kept;
    }
    forall i, j | 0 <= i < j < |found| ensures Sorting.Before(Lower(found[i].fullName), Lower(found[j].fullName)) {
      assert FoundOrder(found[i], found[j]) && FoundKey(found[i]) != FoundKey(found[j]);
      FoundBefore(found[i], found[j]);
    }
  }

  lemma {:induction false} FoundBefore(a: Found, b: Found)
    requires FoundOrder(a, b) && FoundKey(a) != FoundKey(b)
    ensures Sorting.Before(Lower(a.fullName), Lower(b.fullName))
  {
    hide Lower, Sorting.StringLeq, Sorting.Before;
    Sorting.StringLeqMeans(FoundKey(a), FoundKey(b));
  }

  lemma {:induction false} SameMembersSameKeys(a: seq<Found>, b: seq<Found>)
    requires forall x :: x in a <==> x in b
    ensures Keys(a) == Keys(b)
  {
    hide FoundKey;
    forall key ensures key in Keys(a) <==> key in Keys(b) {
      if key in Keys(a) {
        var i :| 0 <= i < |a| && FoundKey(a[i]) == key;
        assert a[i] in b;
      }
      if key in Keys(b) {
        var i :| 0 <= i < |b| && FoundKey(b[i]) == key;
        assert b[i] in a;
      }
    }
  }

  // ---------------------------------------------------------------------------------------------
  // Selection.

  /** One comma-separated part of the operator's answer. */
  datatype Part = Malformed | Range(first: int, last: int)

  /** A number, or two with a dash between them. */
  function PartOf(text: string): Part {
    var bounds := Split(TrimSpace(text), '-');
    if |bounds| > 2 || bounds[0] == "" || Atoi(bounds[0]).None? then Malformed
    else if |bounds| == 1 then Range(Atoi(bounds[0]).value, Atoi(bounds[0]).value)
    else if Atoi(bounds[1]).None? then Malformed
    else Range(Atoi(bounds[0]).value, Atoi(bounds[1]).value)
  }

  function PartsOf(answer: string): (r: seq<Part>)
    ensures r != []
  {
    var texts := Split(TrimSpace(answer), ',');
    seq(|texts|, i requires 0 <= i < |texts| => PartOf(texts[i]))
  }

  function RangeText(part: Part): string {
    match part
    case Malformed => ""
    case Range(first, last) => if first == last then Decimal(first) else Decimal(first) + "-" + Decimal(last)
  }

  function RangeTexts(parts: seq<Part>): (r: seq<string>)
    ensures |r| == |parts| && forall i :: 0 <= i < |parts| ==> r[i] == RangeText(parts[i])
  {
    seq(|parts|, i requires 0 <= i < |parts| => RangeText(parts[i]))
  }

  ghost predicate Writable(part: Part) {
    part.Range? && 0 <= part.first <= MAX_INT && 0 <= part.last <= MAX_INT
  }

  predicate Digital(s: string) {
    s != "" && AllDigits(s)
  }

  lemma {:induction false} BoundsOf(first: string, last: string)
    requires Digital(first) && Digital(last)
    ensures Split(TrimSpace(first), '-') == [first]
    ensures Split(TrimSpace(first + ['-'] + last), '-') == [first, last]
  {
    SplitPrefix(first, last, '-');
    SplitPrefix(last, "", '-');
    hide Split, TrimSpace;
    NothingToTrim(first);
    NothingToTrim(first + ['-'] + last);
  }

  /** Numbers are read back from the texts of a range. */
  lemma {:induction false} BoundsRead(first: string, last: string)
    requires Digital(first) && Digital(last) && Atoi(first).Some? && Atoi(last).Some?
    ensures PartOf(first) == Range(Atoi(first).value, Atoi(first).value)
    ensures PartOf(first + "-" + last) == Range(Atoi(first).value, Atoi(last).value)
  {
    hide Split, Atoi, TrimSpace;
    BoundsOf(first, last);
    assert "-" == ['-'];
  }

  lemma {:induction false} DecimalIsDigital(n: nat)
    requires n <= MAX_INT
    ensures Digital(Decimal(n)) && Atoi(Decimal(n)) == Some(n)
  {
    AtoiRoundTrip(n);
    hide Atoi;
    assert Decimal(n) == Digits(n);
    hide Digits;
  }

  lemma {:induction false} PartRoundTrip(part: Part)
    requires Writable(part)
    ensures PartOf(RangeText(part)) == part
    ensures forall c :: c in RangeText(part) ==> c == '-' || '0' <= c <= '9'
  {
    hide Decimal, Atoi, PartOf, Split, TrimSpace, Digital;
    DecimalIsDigital(part.first);
    DecimalIsDigital(part.last);
    BoundsRead(Decimal(part.first), Decimal(part.last));
    RangeTextChars(part);
  }

  lemma {:induction false} RangeTextChars(part: Part)
    requires Writable(part)
    ensures forall c :: c in RangeText(part) ==> c == '-' || '0' <= c <= '9'
  {
    hide Decimal, Atoi, Digital;
    DecimalIsDigital(part.first);
    DecimalIsDigital(part.last);
    DigitalChars(Decimal(part.first));
    DigitalChars(Decimal(part.last));
    var first, last := Decimal(part.first), Decimal(part.last);
    assert forall c :: c in first + "-" + last ==> c in first || c == '-' || c in last;
  }

  lemma {:induction false} DigitalChars(s: string)
    requires Digital(s)
    ensures forall c :: c in s ==> '0' <= c <= '9'
  {
  }

  /** The text is one number, or two with a single dash between them. */
  ghost predicate Denotes(text: string, first: int, last: int) {
    || ('-' !in text && Atoi(text) == Some(first) && first == last)
    || (exists x: string, y: string :: text == x + "-" + y && '-' !in x && '-' !in y &&
          Atoi(x) == Some(first) && Atoi(y) == Some(last))
  }

  /** A part is a range exactly if its text, without surrounding blanks, denotes one. */
  lemma {:induction false} PartMeans(text: string, first: int, last: int)
    ensures PartOf(text) == Range(first, last) <==> Denotes(TrimSpace(text), first, last)
  {
    assert Atoi("").None?;
    hide TrimSpace, Atoi, Split, Denotes;
    if PartOf(text) == Range(first, last) {
      PartDenotes(TrimSpace(text), Split(TrimSpace(text), '-'), first, last);
    }
    if Denotes(TrimSpace(text), first, last) {
      DenotedBounds(TrimSpace(text), first, last);
    }
  }

  lemma {:induction false} PartDenotes(t: string, bounds: seq<string>, first: int, last: int)
    requires bounds == Split(t, '-')
    requires || (|bounds| == 1 && Atoi(bounds[0]) == Some(first) && first == last)
             || (|bounds| == 2 && Atoi(bounds[0]) == Some(first) && Atoi(bounds[1]) == Some(last))
    ensures Denotes(t, first, last)
  {
    JoinSplit(t, '-');
    hide Atoi, Split;
    assert "-" == ['-'];
    if |bounds| == 1 {
      assert t == bounds[0];
    } else {
      assert bounds[1..] == [bounds[1]];
      assert t == bounds[0] + "-" + bounds[1];
    }
  }

  lemma {:induction false} DenotedBounds(t: string, first: int, last: int)
    requires Denotes(t, first, last)
    ensures var bounds := Split(t, '-');
            || (|bounds| == 1 && Atoi(bounds[0]) == Some(first) && first == last)
            || (|bounds| == 2 && Atoi(bounds[0]) == Some(first) && Atoi(bounds[1]) == Some(last))
  {
    hide Atoi, Split;
    if '-' !in t {
      SplitPrefix(t, "", '-');
    } else {
      var x: string, y: string :| t == x + "-" + y && '-' !in x && '-' !in y &&
        Atoi(x) == Some(first) && Atoi(y) == Some(last);
      assert "-" == ['-'];
      SplitPrefix(x, y, '-');
      SplitPrefix(y, "", '-');
    }
  }

  /** Every list of ranges can be written as an answer that reads back as that list. */
  lemma {:induction false} SelectionRoundTrip(parts: seq<Part>)
    requires parts != [] && forall i :: 0 <= i < |parts| ==> Writable(parts[i])
    ensures PartsOf(Join(RangeTexts(parts), ',')) == parts
  {
    var texts := RangeTexts(parts);
    forall i | 0 <= i < |parts|
      ensures PartOf(texts[i]) == parts[i] && ',' !in texts[i]
      ensures forall c :: c in texts[i] ==> !IsSpace(c)
    {
      PartRoundTrip(parts[i]);
    }
    hide PartOf, RangeTexts, RangeText, Split, TrimSpace, Join, IsSpace, InRange;
    JoinHasNoBlanks(texts);
    assert TrimSpace(Join(texts, ',')) == Join(texts, ',') by {
      NothingToTrim(Join(texts, ','));
    }
    SplitJoin(texts, ',');
  }

  lemma {:induction false} JoinHasNoBlanks(texts: seq<string>)
    requires forall i :: 0 <= i < |texts| ==> forall c :: c in texts[i] ==> !IsSpace(c)
    ensures forall c :: c in Join(texts, ',') ==> !IsSpace(c)
  {
    if |texts| >= 2 {
      JoinHasNoBlanks(texts[1..]);
    }
  }

  predicate InRange(part: Part, count: nat) {
    part.Range? && 1 <= part.first <= part.last <= count
  }

  predicate Covers(part: Part, index: int) {
    part.Range? && part.first - 1 <= index <= part.last - 1
  }

  ghost predicate Chosen(parts: seq<Part>, index: int) {
    exists p :: 0 <= p < |parts| && Covers(parts[p], index)
  }

  lemma {:induction false} ChosenNext(parts: seq<Part>, p: nat, index: int)
    requires p < |parts|
    ensures Chosen(parts[..p + 1], index) <==> Chosen(parts[..p], index) || Covers(parts[p], index)
  {
    hide Covers;
    var before, after := parts[..p], parts[..p + 1];
    if Chosen(before, index) {
      var q :| 0 <= q < p && Covers(before[q], index);
      assert after[q] == before[q];
    }
    if Chosen(after, index) {
      var q :| 0 <= q <= p && Covers(after[q], index);
      assert q < p ==> before[q] == after[q];
    }
    assert after[p] == parts[p];
  }

  /** The chosen zero-based indices, each once, in increasing order. */
  method ParseSelection(answer: string, count: nat) returns (ok: bool, indices: seq<int>)
    ensures ok <==> forall p :: 0 <= p < |PartsOf(answer)| ==>
              var part := PartsOf(answer)[p]; part.Range? && 1 <= part.first <= part.last <= count
    ensures ok ==> indices != [] && forall i, j :: 0 <= i < j < |indices| ==> indices[i] < indices[j]
    ensures ok ==> forall index :: index in indices <==>
              exists p :: 0 <= p < |PartsOf(answer)| &&
                var part := PartsOf(answer)[p]; part.Range? && part.first <= index + 1 <= part.last
    ensures ok ==> forall index :: index in indices ==> 0 <= index < count
  {
    hide PartOf, Split, TrimSpace;
    var texts := Split(TrimSpace(answer), ',');
    ghost var parts := PartsOf(answer);
    assert |parts| == |texts| && forall i :: 0 <= i < |texts| ==> parts[i] == PartOf(texts[i]);
    hide PartsOf;
    var selected: set<int> := {};
    for p := 0 to |texts|
      invariant forall q :: 0 <= q < p ==> InRange(parts[q], count)
      invariant forall index :: index in selected <==> Chosen(parts[..p], index)
      invariant forall index :: index in selected ==> 0 <= index < count
      invariant if p == 0 then selected == {} else parts[0].first - 1 in selected
    {
      var part := PartOf(texts[p]);
      if !InRange(part, count) {
        return false, [];
      }
      ghost var before := selected;
      for index := part.first to part.last + 1
        invariant forall k :: k in selected <==> k in before || parts[p].first - 1 <= k < index - 1
      {
        selected := selected + {index - 1};
      }
      forall index ensures Chosen(parts[..p + 1], index) <==> index in selected {
        ChosenNext(parts, p, index);
      }
    }
    assert parts[..|parts|] == parts;
    if selected == {} {
      return false, [];
    }
    indices := Increasing(selected, count);
    assert parts[0].first - 1 in indices;
    assert forall index :: index in indices <==> Chosen(parts, index);
    ok := true;
  }

  /** The members of a set of indices in increasing order: its keys, collected and sorted. */
  method Increasing(selected: set<int>, count: nat) returns (indices: seq<int>)
    requires forall index :: index in selected ==> 0 <= index < count
    ensures forall i, j :: 0 <= i < j < |indices| ==> indices[i] < indices[j]
    ensures forall index :: index in indices <==> index in selected
  {
    indices := [];
    for index := 0 to count
      invariant forall i, j :: 0 <= i < j < |indices| ==> indices[i] < indices[j]
      invariant forall k :: k in indices <==> k in selected && k < index
    {
      if index in selected {
        forall i | 0 <= i < |indices| ensures indices[i] < index {
          assert indices[i] in indices;
        }
        indices := indices + [index];
      }
    }
  }

  function Picked(found: seq<Found>, indices: seq<int>): (r: seq<Found>)
    requires forall i :: 0 <= i < |indices| ==> 0 <= indices[i] < |found|
    ensures |r| == |indices| && forall i :: 0 <= i < |indices| ==> r[i] == found[indices[i]]
  {
    seq(|indices|, i requires 0 <= i < |indices| => found[indices[i]])
  }

  /** A selection of distinct items has distinct items. */
  lemma {:induction false} PickedApart(found: seq<Found>, indices: seq<int>)
    requires forall i :: 0 <= i < |indices| ==> 0 <= indices[i] < |found|
    requires forall i, j :: 0 <= i < j < |indices| ==> indices[i] < indices[j]
    requires Apart(found) && AllWellFormed(found)
    ensures Apart(Picked(found, indices)) && AllWellFormed(Picked(found, indices))
  {
    hide FoundKey, WellFormed;
  }

  ghost predicate OneOwner(selected: seq<Found>) {
    selected != [] && forall i :: 0 <= i < |selected| ==> EqualFold(OwnerOf(selected[0]), OwnerOf(selected[i]))
  }

  method CommonOwner(selected: seq<Found>) returns (ok: bool)
    ensures ok <==> OneOwner(selected)
  {
    if |selected| == 0 {
      return false;
    }
    for i := 1 to |selected|
      invariant forall j :: 0 <= j < i ==> EqualFold(OwnerOf(selected[0]), OwnerOf(selected[j]))
    {
      if !EqualFold(OwnerOf(selected[0]), OwnerOf(selected[i])) {
        return false;
      }
    }
    return true;
  }

  // ---------------------------------------------------------------------------------------------
  // Replacement.

  function NewEntry(f: Found): Entry {
    Entry(OwnerOf(f), NameOf(f), "", Some(1), [])
  }

  /** The entry a selected repository gets: the existing one, untouched, or a fresh one. */
  function EntryFor(entries: seq<Entry>, f: Found): Entry {
    var i := IndexOf(entries, OwnerOf(f), NameOf(f));
    if i >= 0 then entries[i] else NewEntry(f)
  }

  /** What a selected repository gets: the first entry of that name up to case, or one that validation reads as a
      private repository of that name in the default runner group without policies. */
  lemma {:induction false} EntryForMeans(entries: seq<Entry>, f: Found)
    ensures var e, owner, name := EntryFor(entries, f), OwnerOf(f), NameOf(f);
            || (exists i :: 0 <= i < |entries| && e == entries[i] && SameNames(entries[i], owner, name)
                  && forall k :: 0 <= k < i ==> !SameNames(entries[k], owner, name))
            || ((forall i :: 0 <= i < |entries| ==> !SameNames(entries[i], owner, name))
                  && Final(e) == Repository(TrimSpace(owner), TrimSpace(name), "private", 1, []))
  {
    var owner, name := OwnerOf(f), NameOf(f);
    PrivateStays();
    assert TrimWorkflows([]) == [];
    hide TrimSpace, Lower, OwnerOf, NameOf;
    var i := IndexOf(entries, owner, name);
    assert forall k :: 0 <= k < |entries| ==> (Names(entries[k], owner, name) <==> SameNames(entries[k], owner, name));
  }

  predicate SameNames(e: Entry, owner: string, name: string) {
    Lower(e.owner) == Lower(owner) && Lower(e.name) == Lower(name)
  }

  function Replaced(entries: seq<Entry>, selected: seq<Found>): (r: seq<Entry>)
    ensures |r| == |selected|
    ensures forall i :: 0 <= i < |selected| ==> r[i] == EntryFor(entries, selected[i])
  {
    seq(|selected|, i requires 0 <= i < |selected| => EntryFor(entries, selected[i]))
  }

  /** Replaces the allowlist, without validating again. */
  method ReplaceAllowlist(file: ConfigFile, selected: seq<Found>)
    modifies file
    ensures file.repositories == Replaced(old(file.repositories), selected)
  {
    hide IndexOf, Names, OwnerOf, NameOf, NewEntry;
    var value: seq<Entry> := [];
    for i := 0 to |selected|
      invariant file.repositories == old(file.repositories)
      invariant |value| == i && forall j :: 0 <= j < i ==> value[j] == EntryFor(file.repositories, selected[j])
    {
      var existing := RepositoryNodeIndex(file.repositories, OwnerOf(selected[i]), NameOf(selected[i]));
      if existing >= 0 {
        value := value + [file.repositories[existing]];
      } else {
        value := value + [NewEntry(selected[i])];
      }
    }
    file.repositories := value;
  }

  lemma {:induction false} TrimKeepsChars(s: string)
    ensures forall c :: c in TrimSpace(s) ==> c in s
  {
    TrimLeftKeepsChars(s);
    var l := TrimLeft(s);
    forall c | c in TrimSpace(s) ensures c in s {
      var i :| 0 <= i < |TrimSpace(s)| && TrimSpace(s)[i] == c;
      assert l[i] == c;
    }
  }

  lemma {:induction false} TrimLeftKeepsChars(s: string)
    ensures forall c :: c in TrimLeft(s) ==> c in s
  {
    if s != [] && IsSpace(s[0]) {
      TrimLeftKeepsChars(s[1..]);
    }
  }

  /** The identity of a selected repository once trimmed and folded. */
  function SelectedKey(f: Found): Key {
    (Lower(TrimSpace(OwnerOf(f))), Lower(TrimSpace(NameOf(f))))
  }

  lemma {:induction false} EntryForKey(entries: seq<Entry>, f: Found)
    ensures FinalKey(EntryFor(entries, f)) == SelectedKey(f)
  {
    var e := EntryFor(entries, f);
    assert Names(e, OwnerOf(f), NameOf(f)) by { assert Names(NewEntry(f), OwnerOf(f), NameOf(f)); }
    hide TrimSpace, Lower;
    TrimLower(e.owner);
    TrimLower(e.name);
    TrimLower(OwnerOf(f));
    TrimLower(NameOf(f));
  }

  lemma {:induction false} CleanAfterTrim(f: Found)
    requires WellFormed(f)
    ensures !ContainsAny(TrimSpace(OwnerOf(f)) + TrimSpace(NameOf(f)), "/\\?#")
  {
    var owner, name := OwnerOf(f), NameOf(f);
    TrimKeepsChars(owner);
    TrimKeepsChars(name);
    hide TrimSpace;
    var trimmed, whole := TrimSpace(owner) + TrimSpace(name), owner + name;
    forall i | 0 <= i < |trimmed| ensures trimmed[i] !in "/\\?#" {
      assert trimmed[i] in owner || trimmed[i] in name;
      assert trimmed[i] in whole;
      var k :| 0 <= k < |whole| && whole[k] == trimmed[i];
      assert whole[k] !in "\\?#";
    }
  }

  lemma {:induction false} ValidEmptyPolicies(labels: seq<string>)
    ensures ValidWorkflows(TrimWorkflows([]), labels)
  {
  }

  lemma {:induction false} PrivateStays()
    ensures Lower(TrimSpace("private")) == "private"
  {
    NothingToTrim("private");
    hide TrimSpace;
  }

  lemma {:induction false} NewEntryValidIff(f: Found, labels: seq<string>)
    requires WellFormed(f)
    ensures ValidRepository(Final(NewEntry(f)), labels) <==> TrimSpace(OwnerOf(f)) != "" && TrimSpace(NameOf(f)) != ""
  {
    hide TrimSpace, Lower, WellFormed, ValidWorkflows, TrimWorkflows, ContainsAny, OwnerOf, NameOf;
    CleanAfterTrim(f);
    ValidEmptyPolicies(labels);
    PrivateStays();
    var r := Final(NewEntry(f));
    assert r.owner == TrimSpace(OwnerOf(f)) && r.name == TrimSpace(NameOf(f));
    assert r.visibility == "private" && r.trustedWorkflows == TrimWorkflows([]);
  }

  lemma {:induction false} ValidHasName(e: Entry, labels: seq<string>)
    requires ValidRepository(Final(e), labels)
    ensures FinalKey(e).0 != "" && FinalKey(e).1 != ""
  {
    hide TrimSpace, ValidWorkflows;
    assert |FinalKey(e).0| == |TrimSpace(e.owner)| && |FinalKey(e).1| == |TrimSpace(e.name)|;
  }

  lemma {:induction false} EntryForValidIff(entries: seq<Entry>, f: Found, labels: seq<string>)
    requires Accepted(entries, labels) && WellFormed(f)
    ensures ValidRepository(Final(EntryFor(entries, f)), labels) <==> SelectedKey(f).0 != "" && SelectedKey(f).1 != ""
  {
    EntryForKey(entries, f);
    NewEntryValidIff(f, labels);
    AcceptedMeans(entries, labels);
    assert |SelectedKey(f).0| == |TrimSpace(OwnerOf(f))| && |SelectedKey(f).1| == |TrimSpace(NameOf(f))|;
    hide TrimSpace, Lower, WellFormed, ValidRepository, Accepted, Final, FinalKey, SelectedKey, NewEntry, Names,
      IndexOf;
    var i := IndexOf(entries, OwnerOf(f), NameOf(f));
    if i >= 0 {
      ValidHasName(entries[i], labels);
    }
  }

  /** The selected names stay non-empty, distinct and under one owner when surrounding blanks are dropped. */
  ghost predicate NamesSurviveTrimming(selected: seq<Found>) {
    && (forall i :: 0 <= i < |selected| ==>
          && SelectedKey(selected[i]).0 != "" && SelectedKey(selected[i]).1 != ""
          && SelectedKey(selected[i]).0 == SelectedKey(selected[0]).0)
    && (forall i, j :: 0 <= i < j < |selected| ==> SelectedKey(selected[i]) != SelectedKey(selected[j]))
  }

  /** Main result: although the new list is written without being validated, validation accepts it exactly if
      the selected names survive trimming. */
  lemma {:induction false} ReplacementAcceptedIff(entries: seq<Entry>, selected: seq<Found>, labels: seq<string>)
    requires Accepted(entries, labels) && AllWellFormed(selected) && selected != []
    ensures Accepted(Replaced(entries, selected), labels) <==> NamesSurviveTrimming(selected)
  {
    hide Accepted, WellFormed, ValidRepository, Final, FinalKey, SelectedKey, EntryFor;
    var after := Replaced(entries, selected);
    AcceptedMeans(after, labels);
    forall i | 0 <= i < |selected|
      ensures FinalKey(after[i]) == SelectedKey(selected[i])
      ensures ValidRepository(Final(after[i]), labels) <==>
          SelectedKey(selected[i]).0 != "" && SelectedKey(selected[i]).1 != ""
    {
      EntryForKey(entries, selected[i]);
      EntryForValidIff(entries, selected[i], labels);
    }
    SameKeysApart(after, selected);
    hide FinalKeysApart;
  }

  lemma {:induction false} SameKeysApart(after: seq<Entry>, selected: seq<Found>)
    requires |after| == |selected|
    requires forall i :: 0 <= i < |selected| ==> FinalKey(after[i]) == SelectedKey(selected[i])
    ensures FinalKeysApart(after) <==>
            forall i, j :: 0 <= i < j < |selected| ==> SelectedKey(selected[i]) != SelectedKey(selected[j])
  {
    hide FinalKey, SelectedKey;
    if FinalKeysApart(after) {
      forall i, j | 0 <= i < j < |selected| ensures SelectedKey(selected[i]) != SelectedKey(selected[j]) {
        assert FinalKey(after[i]) != FinalKey(after[j]);
      }
    }
  }

  /** Names as the hosting service has them, without surrounding blanks. */
  predicate Blankless(f: Found) {
    Trimmed(OwnerOf(f)) && Trimmed(NameOf(f))
  }

  lemma {:induction false} SelectedKeyDetermines(a: Found, b: Found)
    requires WellFormed(a) && WellFormed(b) && Blankless(a) && Blankless(b)
    ensures SelectedKey(a).0 != "" && SelectedKey(a).1 != ""
    ensures SelectedKey(a) == SelectedKey(b) ==> FoundKey(a) == FoundKey(b)
    ensures EqualFold(OwnerOf(a), OwnerOf(b)) <==> SelectedKey(a).0 == SelectedKey(b).0
  {
    hide TrimSpace;
    assert a.fullName == OwnerOf(a) + "/" + NameOf(a) && b.fullName == OwnerOf(b) + "/" + NameOf(b);
    assert |SelectedKey(a).0| == |OwnerOf(a)| && |SelectedKey(a).1| == |NameOf(a)|;
    LowerSlash(OwnerOf(a), NameOf(a));
    LowerSlash(OwnerOf(b), NameOf(b));
  }

  /** The guards of the interactive flow therefore suffice for any names without surrounding blanks. */
  lemma {:induction false} GuardedReplacementAccepted(entries: seq<Entry>, selected: seq<Found>, labels: seq<string>)
    requires Accepted(entries, labels) && AllWellFormed(selected) && Apart(selected) && OneOwner(selected)
    requires forall i :: 0 <= i < |selected| ==> Blankless(selected[i])
    ensures Accepted(Replaced(entries, selected), labels)
  {
    hide Accepted, WellFormed, Blankless, SelectedKey, FoundKey, EqualFold, Replaced;
    forall i, j | 0 <= i < |selected| && 0 <= j < |selected|
      ensures SelectedKey(selected[i]).0 != "" && SelectedKey(selected[i]).1 != ""
      ensures SelectedKey(selected[i]) == SelectedKey(selected[j]) ==> FoundKey(selected[i]) == FoundKey(selected[j])
      ensures EqualFold(OwnerOf(selected[i]), OwnerOf(selected[j])) <==>
          SelectedKey(selected[i]).0 == SelectedKey(selected[j]).0
    {
      SelectedKeyDetermines(selected[i], selected[j]);
    }
    ReplacementAcceptedIff(entries, selected, labels);
  }

  /** The guards alone do not: a name of blanks passes every check of the flow. */
  lemma {:induction false} BlankNameBreaksTheFile(entries: seq<Entry>, labels: seq<string>)
    requires Accepted(entries, labels)
    ensures var selected := [Found("a/ ", " ", true)];
            && AllWellFormed(selected) && Apart(selected) && OneOwner(selected)
            && !Accepted(Replaced(entries, selected), labels)
  {
    hide Accepted, Replaced, WellFormed, SelectedKey, FoundKey;
    var selected := [Found("a/ ", " ", true)];
    BlankName(selected[0]);
    assert !NamesSurviveTrimming(selected);
    ReplacementAcceptedIff(entries, selected, labels);
  }

  lemma {:induction false} BlankName(f: Found)
    requires f == Found("a/ ", " ", true)
    ensures WellFormed(f) && SelectedKey(f).1 == ""
  {
    assert f.fullName[1] == '/';
    assert SlashAt(f.fullName) == 1;
    assert f.fullName[..1] == "a" && f.fullName[2..] == " ";
    assert OwnerOf(f) == "a" && NameOf(f) == " ";
    assert TrimSpace(" ") == "" by { assert TrimLeft(" ") == TrimLeft(""); }
  }

  /** An entry the configuration already has for a selected repository is kept as it is exactly if its own
      names carry no surrounding blanks; otherwise a fresh entry without its policies takes its place. */
  lemma {:induction false} RetainedIffTidy(entries: seq<Entry>, f: Found, j: nat, labels: seq<string>)
    requires Accepted(entries, labels) && Blankless(f)
    requires j < |entries| && FinalKey(entries[j]) == SelectedKey(f)
    ensures EntryFor(entries, f) == if Tidy(entries[j]) then entries[j] else NewEntry(f)
  {
    hide Accepted, TrimSpace, Lower, ValidRepository, FinalKey, SelectedKey, Tidy, Names, IndexOf, Blankless, NewEntry;
    AcceptedMeans(entries, labels);
    hide Final;
    var i := IndexOf(entries, OwnerOf(f), NameOf(f));
    NamesMeansTidy(entries[j], f);
    if i >= 0 {
      EntryForKey(entries, f);
      assert FinalKey(entries[i]) == FinalKey(entries[j]);
      assert i == j;
    }
  }

  lemma {:induction false} NamesMeansTidy(e: Entry, f: Found)
    requires Blankless(f) && FinalKey(e) == SelectedKey(f)
    ensures Names(e, OwnerOf(f), NameOf(f)) <==> Tidy(e)
  {
    TrimShortens(e.owner);
    TrimShortens(e.name);
    var owner, name := OwnerOf(f), NameOf(f);
    hide TrimSpace;
    assert TrimSpace(owner) == owner && TrimSpace(name) == name;
    assert |Lower(e.owner)| == |e.owner| && |Lower(TrimSpace(e.owner))| == |TrimSpace(e.owner)|;
    assert |Lower(e.name)| == |e.name| && |Lower(TrimSpace(e.name))| == |TrimSpace(e.name)|;
  }
}
