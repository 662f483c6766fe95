/**
 * The AutoScout24 result-page adapter (src/autoscout/autoscout.entryscraper.ts): how `processData`
 * turns the listing elements of a result page into listings to save.
 *
 * A listing element is given by its two attributes the adapter reads: the element's `id` and the
 * `href` of its anchor. The original reads an absent attribute as `undefined` and throws on
 * `.split`; here that ends the call without a result.
 */
module AutoscoutEntryScraper {
  import opened Wrappers
  import opened Interfaces
  import opened Text

  /** The platform's address, stored in every listing this adapter finds. */
  const PlatformUrl := "https://www.autoscout24.hu"

  /** One `.cldt-summary-full-item` element: its `id` and its anchor's `href`, when present. */
  datatype ListingElement = ListingElement(id: Option<string>, href: Option<string>)

  /** `id.split('-').slice(1).join('-')`: the element id without its first `-`-separated part. */
  function PlatformIdOf(id: string): string {
    var parts := Split(id, '-');
    Join(parts[1..], '-')
  }

  /** The platform id is everything after the first `-` of the element id, so `x-a-b` gives `a-b`. */
  lemma PlatformIdAfterFirstDash(head: string, rest: string)
    requires '-' !in head
    ensures PlatformIdOf(head + "-" + rest) == rest
  {
    SplitAfterPiece(head, '-', rest);
    assert ([head] + Split(rest, '-'))[1..] == Split(rest, '-');
    JoinSplit(rest, '-');
  }

  /** An element id without `-` gives the empty platform id. */
  lemma PlatformIdWithoutDash(id: string)
    requires '-' !in id
    ensures PlatformIdOf(id) == ""
  {
  }

  /** `` `/ajanlat/${href.split('/')[2]}` ``: the third `/`-separated segment, or `undefined` when there is none. */
  function LinkOf(href: string): (link: string)
    ensures |link| >= 9 && link[..9] == "/ajanlat/"
  {
    var parts := Split(href, '/');
    "/ajanlat/" + (if |parts| > 2 then parts[2] else "undefined")
  }

  /** A link `/a/b` or `/a/b/...` gives `/ajanlat/b`: the segment after the second slash. */
  lemma LinkOfPath(a: string, b: string, tail: string)
    requires '/' !in a && '/' !in b
    requires tail == [] || tail[0] == '/'
    ensures LinkOf("/" + (a + ("/" + (b + tail)))) == "/ajanlat/" + b
  {
    ThirdSegment(a, b, tail);
  }

  lemma ThirdSegment(a: string, b: string, tail: string)
    requires '/' !in a && '/' !in b
    requires tail == [] || tail[0] == '/'
    ensures var parts := Split("/" + (a + ("/" + (b + tail))), '/');
            |parts| > 2 && parts[2] == b
  {
    var rest := b + tail;
    var afterA := a + ("/" + rest);
    var partsOfRest := Split(rest, '/');
    var partsAfterA := Split(afterA, '/');
    var parts := Split("/" + afterA, '/');
    assert partsAfterA == [a] + partsOfRest by { SlashAfterPiece(a, rest); }
    assert parts == [[]] + partsAfterA by { LeadingSlash(afterA); }
    assert partsOfRest[0] == b by { FirstPiece(b, tail); }
  }

  /** A separator-free piece then `/` opens the split with that piece. */
  lemma SlashAfterPiece(p: string, rest: string)
    requires '/' !in p
    ensures Split(p + ("/" + rest), '/') == [p] + Split(rest, '/')
  {
    assert p + ("/" + rest) == p + ['/'] + rest;
    SplitAfterPiece(p, '/', rest);
  }

  /** A leading `/` opens the split with an empty piece. */
  lemma LeadingSlash(rest: string)
    ensures Split("/" + rest, '/') == [[]] + Split(rest, '/')
  {
    assert "/" + rest == [] + ['/'] + rest;
    SplitAfterPiece([], '/', rest);
  }

  /** A separator-free piece followed by nothing or by a separator is the first piece of the split. */
  lemma FirstPiece(b: string, tail: string)
    requires '/' !in b
    requires tail == [] || tail[0] == '/'
    ensures Split(b + tail, '/')[0] == b
  {
    if tail == [] {
      assert b + tail == b;
    } else {
      assert b + tail == b + ['/'] + tail[1..];
      SplitAfterPiece(b, '/', tail[1..]);
    }
  }

  /** The listing an element stands for, or nothing when an attribute is missing (the original throws). */
  function EntryOf(element: ListingElement): (r: Option<VehicleEntry>)
    ensures r.Some? <==> element.id.Some? && element.href.Some?
    ensures r.Some? ==> r.value.platform == PlatformUrl
  {
    if element.id.None? || element.href.None? then None
    else Some(VehicleEntry(PlatformUrl, PlatformIdOf(element.id.value), LinkOf(element.href.value)))
  }

  /**
   * What `processData` returns for the elements in document order: one listing per element, each put
   * in front of the ones before it; nothing when any element lacks an attribute.
   */
  function Entries(elements: seq<ListingElement>): (r: Option<seq<VehicleEntry>>)
    ensures r.Some? ==> |r.value| == |elements|
  {
    if elements == [] then Some([])
    else
      match Entries(elements[..|elements| - 1])
      case None => None
      case Some(rest) =>
        match EntryOf(elements[|elements| - 1])
        case None => None
        case Some(e) => Some([e] + rest)
  }

  /** The response fails exactly when some element lacks an attribute. */
  lemma {:induction false} EntriesFail(elements: seq<ListingElement>)
    ensures Entries(elements).None? <==> exists i :: 0 <= i < |elements| && EntryOf(elements[i]).None?
  {
    if elements != [] {
      var front := elements[..|elements| - 1];
      EntriesFail(front);
      assert Entries(elements).None? <==> Entries(front).None? || EntryOf(elements[|elements| - 1]).None?;
      MissingInFrontOrLast(elements);
    }
  }

  /** Some element lacks an attribute exactly when one before the last does or the last does. */
  lemma MissingInFrontOrLast(elements: seq<ListingElement>)
    requires elements != []
    ensures var front := elements[..|elements| - 1];
            (exists i :: 0 <= i < |elements| && EntryOf(elements[i]).None?) <==>
            (exists i :: 0 <= i < |front| && EntryOf(front[i]).None?) || EntryOf(elements[|elements| - 1]).None?
  {
    var front := elements[..|elements| - 1];
    var last := |elements| - 1;
    if exists i :: 0 <= i < |elements| && EntryOf(elements[i]).None? {
      var i :| 0 <= i < |elements| && EntryOf(elements[i]).None?;
      if i < last {
        assert front[i] == elements[i];
        assert 0 <= i < |front| && EntryOf(front[i]).None?;
      } else {
        assert i == last;
      }
    }
    if exists i :: 0 <= i < |front| && EntryOf(front[i]).None? {
      var i :| 0 <= i < |front| && EntryOf(front[i]).None?;
      assert front[i] == elements[i];
      assert 0 <= i < |elements| && EntryOf(elements[i]).None?;
    }
    if EntryOf(elements[last]).None? {
      assert 0 <= last < |elements| && EntryOf(elements[last]).None?;
    }
  }

  /** The response lists the elements' listings in reverse document order: the last element's comes first. */
  lemma {:induction false} EntriesReversed(elements: seq<ListingElement>)
    requires Entries(elements).Some?
    ensures forall k :: 0 <= k < |elements| ==> Some(Entries(elements).value[k]) == EntryOf(elements[|elements| - 1 - k])
  {
    if elements != [] {
      var front := elements[..|elements| - 1];
      EntriesReversed(front);
      var rest := Entries(front).value;
      var e := EntryOf(elements[|elements| - 1]).value;
      var r := Entries(elements).value;
      assert r == [e] + rest;
      forall k | 0 <= k < |elements|
        ensures Some(r[k]) == EntryOf(elements[|elements| - 1 - k])
      {
        if k > 0 {
          assert r[k] == rest[k - 1];
          assert Some(rest[k - 1]) == EntryOf(front[|front| - 1 - (k - 1)]);
          var j := |elements| - 1 - k;
          assert |front| - 1 - (k - 1) == j && j < |front|;
          assert front[j] == elements[j];
        }
      }
    }
  }

  /** Every listing the adapter returns carries the platform's address. */
  lemma EntriesOnPlatform(elements: seq<ListingElement>)
    requires Entries(elements).Some?
    ensures forall k :: 0 <= k < |elements| ==> Entries(elements).value[k].platform == PlatformUrl
  {
    var r := Entries(elements).value;
    EntriesReversed(elements);
    forall k | 0 <= k < |elements|
      ensures r[k].platform == PlatformUrl
    {
      assert Some(r[k]) == EntryOf(elements[|elements| - 1 - k]);
    }
  }

  /** `processData`: walk the elements in document order, putting each listing at the front of the response. */
  method ProcessData(elements: seq<ListingElement>) returns (response: Option<seq<VehicleEntry>>)
    ensures response == Entries(elements)
  {
    var acc: seq<VehicleEntry> := [];
    for i := 0 to |elements|
      invariant Entries(elements[..i]) == Some(acc)
    {
      var element := elements[i];
      assert elements[..i + 1][..i] == elements[..i];
      if element.id.None? || element.href.None? {
        EntriesFail(elements);
        assert EntryOf(elements[i]).None?;
        return None;
      }
      var vehicle := VehicleEntry(PlatformUrl, PlatformIdOf(element.id.value), LinkOf(element.href.value));
      acc := [vehicle] + acc;
    }
    assert elements[..|elements|] == elements;
    response := Some(acc);
  }
}
