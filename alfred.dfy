/** The launcher's output schema (`alfredOutput` and its parts) and how one
    story is shown as an item of it. */
module Alfred {
  import opened Types
  import opened Decimal
  import opened TimeAgo

  /** A modifier-key action of an item (`alfredItemMod`). */
  datatype Mod = Mod(valid: bool, arg: string, subtitle: string)

  /** The `alt` and `cmd` actions; a nil pointer is `None`. */
  datatype Mods = Mods(alt: Option<Mod>, cmd: Option<Mod>)

  /** One launcher row (`alfredItem`). */
  datatype Item = Item(title: string, subtitle: string, arg: string, valid: bool, mods: Mods)

  /** Go's zero value of an item: what the preallocated output holds. */
  const ZeroItem: Item := Item("", "", "", false, Mods(None, None))

  function ZeroItems(): (s: seq<Item>) {
    seq(NumStories, _ => ZeroItem)
  }

  /** Comment count of a story: singular for exactly one comment only. */
  function CommentsText(n: nat): (s: string)
    ensures s == IntToString(n) + (if n == 1 then " comment" else " comments")
  {
    if n == 1 then "1 comment" else IntToString(n) + " comments"
  }

  /** The singular text is printed for one comment and for no other count. */
  lemma SingularOnlyForOne(n: nat)
    ensures CommentsText(n) == "1 comment" <==> n == 1
  {
  }

  lemma CommentsTextExamples()
    ensures CommentsText(0) == "0 comments"
    ensures CommentsText(1) == "1 comment"
    ensures CommentsText(5) == "5 comments"
  {
  }

  /** Address of a story's discussion page. */
  function ItemUrl(id: int): string {
    "https://news.ycombinator.com/item?id=" + IntToString(id)
  }

  /** Distinct stories link to distinct discussion pages. */
  lemma ItemUrlInjective(a: int, b: int)
    ensures ItemUrl(a) == ItemUrl(b) ==> a == b
  {
    var p := "https://news.ycombinator.com/item?id=";
    if ItemUrl(a) == ItemUrl(b) {
      assert IntToString(a) == ItemUrl(a)[|p|..];
      assert IntToString(b) == ItemUrl(b)[|p|..];
      IntToStringInjective(a, b);
    }
  }

  function Subtitle(s: Story, now: int): string {
    IntToString(s.score) + " points by " + s.author + " " + TimeAgoText(s.time, now)
      + " | " + CommentsText(|s.kids|)
  }

  /** The item one story is shown as. */
  function Present(s: Story, now: int): Item {
    Item(s.title, Subtitle(s, now), s.url, true,
         Mods(Some(Mod(true, ItemUrl(s.id), "open comments")), None))
  }

  /** A shown item is a valid row with the story's title and link, an `alt`
      action that opens the story's own discussion page, and no `cmd` action;
      two items with the same `alt` action show stories with the same id. */
  lemma PresentShowsStory(s: Story, t: Story, now: int)
    ensures var it := Present(s, now);
      && it.title == s.title && it.arg == s.url && it.valid
      && it.mods.alt.Some? && it.mods.alt.value.valid
      && it.mods.alt.value.arg == ItemUrl(s.id)
      && it.mods.cmd.None?
    ensures Present(s, now).mods.alt == Present(t, now).mods.alt ==> s.id == t.id
  {
    ItemUrlInjective(s.id, t.id);
  }
}
