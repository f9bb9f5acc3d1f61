/**
 * Slack Block Kit blocks and the per-dish block builder
 * (`CreateDefaultSectionText`, `CreateSlackAttachment`).
 */
module Blocks {
  import opened Options
  import opened Text

  /** An `AccessoryBlock`: both fields stay unset (null) unless an image was found. */
  datatype Accessory = Accessory(altText: Option<string>, imageUrl: Option<string>)

  /** A `SectionBlock` with its `TextBlock` text; header blocks carry no accessory. */
  datatype SectionBlock = SectionBlock(text: string, accessory: Option<Accessory>)

  /** A `SlackMessage`: the blocks and the optional `response_type`. */
  datatype SlackMessage = SlackMessage(blocks: seq<SectionBlock>, responseType: Option<string>)

  /** The image searcher: a dish name to an image URL, or nothing. It never fails. */
  type ImageSearch = string -> Option<string>

  /** A one-element list holding a section with `text` and no accessory. */
  function CreateDefaultSectionText(text: string): (r: seq<SectionBlock>)
    ensures |r| == 1 && r[0].text == text && r[0].accessory.None?
  {
    [SectionBlock(text, None)]
  }

  /** The dishes that get a block: those that are not null or white space, in order. */
  function NonBlank(meals: seq<string>): (r: seq<string>)
    ensures |r| <= |meals|
    ensures forall i :: 0 <= i < |r| ==> !IsBlank(r[i]) && r[i] in meals
  {
    if meals == [] then []
    else if IsBlank(meals[0]) then NonBlank(meals[1..])
    else [meals[0]] + NonBlank(meals[1..])
  }

  /** The block for one non-blank dish, given what the image search returned. */
  function DishBlock(dish: string, image: Option<string>): (b: SectionBlock)
    ensures b.text == "*" + dish + "*" && b.accessory.Some?
    ensures b.accessory.value.imageUrl == image
    ensures b.accessory.value.altText.Some? <==> image.Some?
    ensures b.accessory.value.altText.Some? ==> b.accessory.value.altText.value == dish
  {
    SectionBlock("*" + dish + "*",
                 Some(if image.Some? then Accessory(Some(dish), image) else Accessory(None, None)))
  }

  /** One block per non-blank dish, in the order of `meals`. */
  function DishBlocks(meals: seq<string>, search: ImageSearch): (r: seq<SectionBlock>)
    ensures |r| == |NonBlank(meals)|
  {
    var dishes := NonBlank(meals);
    seq(|dishes|, i requires 0 <= i < |dishes| => DishBlock(dishes[i], search(dishes[i])))
  }

  /**
   * The loop of `CreateSlackAttachment`: a fresh block per meal, skipped when the
   * name is blank; otherwise its text is set, the image search is asked, and the
   * accessory is filled in when a URL came back. `searched` is the sequence of
   * names the image search was asked for.
   */
  method CreateSlackAttachment(meals: seq<string>, search: ImageSearch)
    returns (blocks: seq<SectionBlock>, searched: seq<string>)
    ensures searched == NonBlank(meals)
    ensures blocks == DishBlocks(meals, search)
    ensures |blocks| == |searched|
    ensures forall i :: 0 <= i < |blocks| ==>
              && blocks[i].text == "*" + searched[i] + "*"
              && blocks[i].accessory.Some?
              && (blocks[i].accessory.value.imageUrl == search(searched[i]))
              && (blocks[i].accessory.value.altText ==
                    if search(searched[i]).Some? then Some(searched[i]) else None)
  {
    blocks, searched := [], [];
    for k := 0 to |meals|
      invariant searched == NonBlank(meals[..k])
      invariant |blocks| == |searched|
      invariant forall i :: 0 <= i < |blocks| ==> blocks[i] == DishBlock(searched[i], search(searched[i]))
    {
      NonBlankAppend(meals[..k], [meals[k]]);
      assert meals[..k + 1] == meals[..k] + [meals[k]];
      var block := SectionBlock("", Some(Accessory(None, None)));
      var dishName := meals[k];
      if IsBlank(dishName) {
        continue;
      }
      if !IsBlank(dishName) {
        block := block.(text := "*" + dishName + "*");
        var url := search(dishName);
        searched := searched + [dishName];
        if url.Some? {
          block := block.(accessory := Some(Accessory(Some(dishName), url)));
        }
      }
      blocks := blocks + [block];
    }
    assert meals[..|meals|] == meals;
  }

  /** Filtering distributes over concatenation, so it keeps the order of the dishes. */
  lemma {:induction false} NonBlankAppend(a: seq<string>, b: seq<string>)
    ensures NonBlank(a + b) == NonBlank(a) + NonBlank(b)
  {
    if a == [] {
      assert a + b == b;
    } else {
      assert (a + b)[1..] == a[1..] + b;
      NonBlankAppend(a[1..], b);
    }
  }

  /** Every non-blank dish keeps its number of occurrences; blank ones disappear. */
  lemma {:induction false} NonBlankCounts(meals: seq<string>, dish: string)
    ensures multiset(NonBlank(meals))[dish] == if IsBlank(dish) then 0 else multiset(meals)[dish]
  {
    if meals != [] {
      NonBlankCounts(meals[1..], dish);
      assert meals == [meals[0]] + meals[1..];
    }
  }

  /** A list without blank names passes through unchanged. */
  lemma {:induction false} NonBlankKeepsNonBlank(meals: seq<string>)
    requires forall i :: 0 <= i < |meals| ==> !IsBlank(meals[i])
    ensures NonBlank(meals) == meals
  {
    if meals != [] {
      NonBlankKeepsNonBlank(meals[1..]);
    }
  }

  /** A list of blank names gives no blocks at all. */
  lemma {:induction false} NonBlankDropsBlank(meals: seq<string>)
    requires forall i :: 0 <= i < |meals| ==> IsBlank(meals[i])
    ensures NonBlank(meals) == []
  {
    if meals != [] {
      NonBlankDropsBlank(meals[1..]);
    }
  }

  /** Only the accessories depend on the image search: the texts, and so the
      number and order of the dish blocks, do not. */
  lemma SearchOnlyAffectsAccessories(meals: seq<string>, search1: ImageSearch, search2: ImageSearch)
    ensures |DishBlocks(meals, search1)| == |DishBlocks(meals, search2)|
    ensures forall i :: 0 <= i < |DishBlocks(meals, search1)| ==>
              DishBlocks(meals, search1)[i].text == DishBlocks(meals, search2)[i].text
  {
  }
}
