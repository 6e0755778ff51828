/** The records of fastapi_app/app/fft.py and its two pure string routines:
    the filter-and-format step of the transcript index listing, and the
    join-or-degrade step of fetching one transcript's text. The page fetches,
    the HTML parsing and the language-model calls are left to the caller:
    their results arrive here as already-parsed values. */
module Fft {
  import opened Prelude
  import opened Text

  /** Prefix every transcript link on the index page carries. */
  const BaseUrl: string := "https://tim.blog"

  /** Separator of the listing's lines and of a transcript's paragraphs. */
  const NewLine: char := '\n'

  /** Separator between an anchor's text and its href in a listing line. */
  const Dash: string := " - "

  /** Number of prompts generated for one week. */
  const SlotCount: nat := 7

  /** One show transcript: episode name and transcript URL. */
  datatype Transcript = Transcript(name: string, url: string)

  /** One piece of wisdom and the journal prompt it inspires. */
  datatype FoodForThought = FoodForThought(foodForThought: string, journal: string)

  /** A week's worth of prompts: the seven required fields
      `food_for_thought_1` .. `food_for_thought_7`, kept in order, so that
      field n is element n - 1. */
  type WeeklyFFT = s: seq<FoodForThought> | |s| == SlotCount
    witness seq(7, _ => FoodForThought("", ""))

  /** The names of the seven fields, in declaration order. */
  const FieldNames: seq<string> := [
    "food_for_thought_1", "food_for_thought_2", "food_for_thought_3",
    "food_for_thought_4", "food_for_thought_5", "food_for_thought_6",
    "food_for_thought_7"]

  /** What the field names have in common before the slot number. */
  const FieldPrefix: string := "food_for_thought_"

  /** `getattr(w, name, None)`: the field called `name`, or None when the
      record has no such field. */
  function GetAttr(w: WeeklyFFT, name: string): (r: Option<FoodForThought>)
    ensures r.Some? <==> name in FieldNames
    ensures forall k :: 0 <= k < SlotCount && FieldNames[k] == name ==> r == Some(w[k])
  {
    FindField(w, name, 0)
  }

  /** The search behind `GetAttr`, from field `k` on; no two fields share
      a name, so the first hit is the only one. */
  function FindField(w: WeeklyFFT, name: string, k: nat): (r: Option<FoodForThought>)
    requires k <= SlotCount
    ensures r.Some? <==> exists j :: k <= j < SlotCount && FieldNames[j] == name
    ensures forall j :: k <= j < SlotCount && FieldNames[j] == name ==> r == Some(w[j])
    decreases SlotCount - k
  {
    if k == SlotCount then None
    else if FieldNames[k] == name then
      assert forall j :: k <= j < SlotCount && FieldNames[j] == name ==> j == k by {
        FieldNamesDistinct();
      }
      Some(w[k])
    else FindField(w, name, k + 1)
  }

  /** Field k is the prefix followed by the digit of k + 1. */
  lemma FieldNamesSpelled()
    ensures forall k :: 0 <= k < SlotCount ==> FieldNames[k] == FieldPrefix + [DigitChar(k + 1)]
  {
  }

  lemma FieldNamesDistinct()
    ensures forall j, k :: 0 <= j < SlotCount && 0 <= k < SlotCount ==>
      (FieldNames[j] == FieldNames[k] ==> j == k)
  {
    FieldNamesSpelled();
    forall j, k | 0 <= j < SlotCount && 0 <= k < SlotCount && FieldNames[j] == FieldNames[k]
      ensures j == k
    {
      assert FieldNames[j][|FieldPrefix|] == DigitChar(j + 1);
      assert FieldNames[k][|FieldPrefix|] == DigitChar(k + 1);
    }
  }

  /** The f-string `f"food_for_thought_{n}"`. */
  function FieldName(n: int): string {
    FieldPrefix + IntToString(n)
  }

  /** The computed name is field k's name exactly when n is k + 1. */
  lemma FieldNameIs(n: int, k: nat)
    requires k < SlotCount
    ensures FieldName(n) == FieldNames[k] <==> n == k + 1
  {
    FieldNamesSpelled();
    var p := FieldPrefix;
    if FieldName(n) == FieldNames[k] {
      assert IntToString(n) == FieldName(n)[|p|..];
      assert [DigitChar(k + 1)] == FieldNames[k][|p|..];
    }
    SingleDigitString(n, k + 1);
  }

  /** Slot n of a week, for n in 1..7: element n - 1. */
  function Slot(w: WeeklyFFT, n: int): Option<FoodForThought> {
    if 1 <= n <= SlotCount then Some(w[n - 1]) else None
  }

  /** Looking up the computed name `food_for_thought_{n}` finds slot n: a
      field exactly when n is in 1..7, and then field n. */
  lemma SlotIsGetAttr(w: WeeklyFFT, n: int)
    ensures GetAttr(w, FieldName(n)) == Slot(w, n)
  {
    forall k | 0 <= k < SlotCount
      ensures FieldNames[k] == FieldName(n) <==> n == k + 1
    {
      FieldNameIs(n, k);
    }
    if 1 <= n <= SlotCount {
      assert FieldNames[n - 1] == FieldName(n);
    } else {
      assert FieldName(n) !in FieldNames;
    }
  }

  /** What `create_day` relies on: with the cursor capped at 7, a slot is
      found exactly when the cursor is at least 1; it is the cursor's own
      slot up to 7 and slot 7 from then on. */
  lemma SlotOfCursor(w: WeeklyFFT, c: int)
    ensures Slot(w, Min(c, SlotCount)).Some? <==> c >= 1
    ensures 1 <= c <= SlotCount ==> Slot(w, Min(c, SlotCount)) == Some(w[c - 1])
    ensures c >= SlotCount ==> Slot(w, Min(c, SlotCount)) == Some(w[SlotCount - 1])
  {
  }

  // ---------------------------------------------------------------------
  // Transcript index listing
  // ---------------------------------------------------------------------

  /** An `<a href>` element of the index page: its stripped text and its
      href attribute, in document order. */
  datatype Anchor = Anchor(text: string, href: string)

  /** The listing keeps an anchor when its href contains the base URL. */
  function Keeps(a: Anchor): (r: bool)
    ensures r <==> exists i :: OccursAt(BaseUrl, a.href, i)
  {
    Contains(BaseUrl, a.href)
  }

  /** The kept anchors, in document order. */
  function KeptAnchors(anchors: seq<Anchor>): (r: seq<Anchor>)
    ensures |r| <= |anchors|
    ensures forall k :: 0 <= k < |r| ==> Keeps(r[k]) && r[k] in anchors
    ensures forall a :: a in anchors && Keeps(a) ==> a in r
  {
    if |anchors| == 0 then []
    else if Keeps(anchors[0]) then [anchors[0]] + KeptAnchors(anchors[1..])
    else KeptAnchors(anchors[1..])
  }

  /** Filtering commutes with concatenation: the kept anchors of a page keep
      the page's order. */
  lemma {:induction false} KeptAnchorsAppend(a: seq<Anchor>, b: seq<Anchor>)
    ensures KeptAnchors(a + b) == KeptAnchors(a) + KeptAnchors(b)
    decreases |a|
  {
    if |a| > 0 {
      assert (a + b)[0] == a[0];
      assert (a + b)[1..] == a[1..] + b;
      KeptAnchorsAppend(a[1..], b);
    } else {
      assert a + b == b;
    }
  }

  /** One listing line: `text - href`. */
  function LinkLine(a: Anchor): (r: string)
    ensures |r| == |a.text| + |Dash| + |a.href|
    ensures r[..|a.text|] == a.text
    ensures r[|a.text|..|a.text| + |Dash|] == Dash
    ensures r[|r| - |a.href|..] == a.href
    ensures NewLine !in a.text && NewLine !in a.href ==> NewLine !in r
  {
    a.text + Dash + a.href
  }

  /** One listing line per anchor; no line spills a newline unless its
      anchor does. */
  function LinkLines(anchors: seq<Anchor>): (r: seq<string>)
    ensures |r| == |anchors|
    ensures forall k :: 0 <= k < |r| ==>
      (NewLine !in anchors[k].text && NewLine !in anchors[k].href ==> NewLine !in r[k])
  {
    seq(|anchors|, k requires 0 <= k < |anchors| => LinkLine(anchors[k]))
  }

  lemma LinkLinesAppend(anchors: seq<Anchor>, a: Anchor)
    ensures LinkLines(anchors + [a]) == LinkLines(anchors) + [LinkLine(a)]
  {
  }

  /** One step of the listing loop: the lines of the first i + 1 anchors
      are those of the first i, plus anchor i's line when it is kept. */
  lemma ListingStep(anchors: seq<Anchor>, i: nat)
    requires i < |anchors|
    ensures LinkLines(KeptAnchors(anchors[..i + 1]))
         == LinkLines(KeptAnchors(anchors[..i]))
            + (if Keeps(anchors[i]) then [LinkLine(anchors[i])] else [])
  {
    var a := anchors[i];
    assert anchors[..i + 1] == anchors[..i] + [a];
    KeptAnchorsAppend(anchors[..i], [a]);
    if Keeps(a) {
      assert KeptAnchors([a]) == [a];
      LinkLinesAppend(KeptAnchors(anchors[..i]), a);
    } else {
      assert KeptAnchors([a]) == [];
      assert KeptAnchors(anchors[..i + 1]) == KeptAnchors(anchors[..i]);
    }
  }

  /** A loop that has walked every anchor has seen them all. */
  lemma WholePrefix(anchors: seq<Anchor>, i: int)
    requires i == |anchors|
    ensures anchors[..i] == anchors
  {
  }

  /** The body of `__list_transcript_links` once the index page is parsed:
      walks the anchors in document order, keeps those whose href contains
      the base URL, and joins their `text - href` lines with newlines. */
  method ListTranscriptLinks(anchors: seq<Anchor>) returns (listing: string)
    ensures listing == Join(LinkLines(KeptAnchors(anchors)), [NewLine])
    ensures (forall a :: a in anchors ==> !Keeps(a)) <==> listing == ""
  {
    var lines: seq<string> := [];
    var i := 0;
    while i < |anchors|
      invariant 0 <= i <= |anchors|
      invariant lines == LinkLines(KeptAnchors(anchors[..i]))
    {
      var a := anchors[i];
      ListingStep(anchors, i);
      if Contains(BaseUrl, a.href) {
        lines := lines + [LinkLine(a)];
      }
      i := i + 1;
    }
    WholePrefix(anchors, i);
    listing := Join(lines, [NewLine]);
    ListingEmptyIffNoneKept(anchors);
  }

  /** The listing is empty exactly when no anchor is kept: a kept line is
      never empty, since it holds at least the dash separator. */
  lemma ListingEmptyIffNoneKept(anchors: seq<Anchor>)
    ensures (forall a :: a in anchors ==> !Keeps(a))
        <==> Join(LinkLines(KeptAnchors(anchors)), [NewLine]) == ""
  {
  }

  /** Reading the listing back line by line gives one `text - href` line per
      kept anchor, in document order, provided no anchor spills a newline. */
  lemma ListingLines(anchors: seq<Anchor>)
    requires forall a :: a in anchors ==> NewLine !in a.text && NewLine !in a.href
    requires exists a :: a in anchors && Keeps(a)
    ensures Split(Join(LinkLines(KeptAnchors(anchors)), [NewLine]), NewLine)
         == LinkLines(KeptAnchors(anchors))
  {
    var kept := KeptAnchors(anchors);
    var lines := LinkLines(kept);
    forall k | 0 <= k < |lines|
      ensures NewLine !in lines[k]
    {
      assert kept[k] in anchors;
    }
    SplitJoin(lines, NewLine);
  }

  // ---------------------------------------------------------------------
  // Transcript content
  // ---------------------------------------------------------------------

  /** What fetching a transcript page yields: a request failure (connection
      error or an error status) or the stripped texts of its paragraphs. */
  datatype PageFetch = RequestFailed | Paragraphs(texts: seq<string>)

  /** The body of `__fetch_transcript_content`: the paragraph texts joined
      with newlines, or "" when the request failed. */
  function TranscriptContent(fetch: PageFetch): (content: string)
    ensures fetch.RequestFailed? ==> content == ""
    ensures fetch.Paragraphs? && |fetch.texts| == 1 ==> content == fetch.texts[0]
  {
    match fetch
    case RequestFailed => ""
    case Paragraphs(texts) => Join(texts, [NewLine])
  }

  /** Reading the content back line by line gives the paragraphs, provided
      there is at least one and none holds a newline of its own. */
  lemma ContentParagraphs(texts: seq<string>)
    requires |texts| > 0
    requires forall k :: 0 <= k < |texts| ==> NewLine !in texts[k]
    ensures Split(TranscriptContent(Paragraphs(texts)), NewLine) == texts
  {
    SplitJoin(texts, NewLine);
  }

  /** The content is as long as the paragraphs together plus one newline
      between each pair of neighbours. */
  lemma ContentLength(texts: seq<string>)
    ensures |TranscriptContent(Paragraphs(texts))|
         == SumLengths(texts) + (if |texts| == 0 then 0 else |texts| - 1)
  {
  }

  /** The content is built paragraph by paragraph: the content of all but
      the last paragraph, a newline, then the last paragraph's text. */
  lemma ContentLastParagraph(texts: seq<string>)
    requires |texts| >= 2
    ensures TranscriptContent(Paragraphs(texts))
         == TranscriptContent(Paragraphs(texts[..|texts| - 1])) + [NewLine] + texts[|texts| - 1]
  {
    JoinLast(texts, [NewLine]);
  }
}
