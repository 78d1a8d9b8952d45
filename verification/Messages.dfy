/** What a recipient reads: where the parts of an item stand in the two kinds of message. */
module Messages {
  import opened Decimal
  import opened Classifier
  import opened DigestFormat
  import Service

  // The text reads: before, the class, a slash, the severity, "] ", the summary, and after.
  ghost predicate Shows(text: string, before: string, item: Item, after: string) {
    var c := |before| + 1;
    var s := c + |item.class_| + 1;
    var m := s + |item.severity| + 2;
    && |text| == m + |item.summary| + |after|
    && text[..c] == before + "["
    && text[c..s - 1] == item.class_
    && text[s - 1] == '/'
    && text[s..m - 2] == item.severity
    && text[m - 2..m] == "] "
    && text[m..m + |item.summary|] == item.summary
    && text[m + |item.summary|..] == after
  }

  lemma Framed(before: string, item: Item, after: string)
    ensures Shows((before + "[") + item.class_ + "/" + item.severity + "] " + item.summary + after, before, item, after)
  {
    FramedParts(before + "[", item.class_, item.severity, item.summary, after);
  }

  lemma FramedParts(a: string, c: string, s: string, m: string, z: string)
    ensures var t := a + c + "/" + s + "] " + m + z;
      var i, j, k := |a|, |a| + |c| + 1, |a| + |c| + |s| + 3;
      && |t| == k + |m| + |z|
      && t[..i] == a && t[i..j - 1] == c && t[j - 1] == '/' && t[j..k - 2] == s && t[k - 2..k] == "] "
      && t[k..k + |m|] == m && t[k + |m|..] == z
  {}

  /** An immediate message is the item's class and severity in brackets, and its summary. */
  lemma ImmediateShows(item: Item)
    ensures Shows(Service.FormatImmediate(item), "", item, "")
  {
    Framed("", item, "");
    assert "" + "[" == "[";
    var t := "[" + item.class_ + "/" + item.severity + "] " + item.summary;
    assert t + "" == t;
  }

  /** A line of a digest is the same after a dash, and ends the line. */
  lemma LineShows(item: Item)
    ensures Shows(Line(item), "- ", item, "\n")
  {
    Framed("- ", item, "\n");
    assert "- " + "[" == "- [";
  }

  /** A digest opens with the number of its items and shows each of them, in the stable order by
      severity, on a line of its own. */
  lemma DigestShowsEveryItem(items: seq<Item>, k: nat)
    requires k < |items|
    ensures |BySeverity(items)| == |items|
    ensures exists before, after, line ::
      && Render(items) == Itoa(|items|) + " notice(s):\n" + before + line + after
      && Newlines(before) == k + TotalBreaks(BySeverity(items)[..k])
      && Shows(line, "- ", BySeverity(items)[k], "\n")
  {
    SameLength(items);
    var order := BySeverity(items);
    LineShows(order[k]);
    NewlinesOfLines(order[..k]);
    LinesAfter(order, k);
    var after :| Lines(order) == Lines(order[..k]) + Line(order[k]) + after;
    HeaderFirst(Header(|items|), Lines(order[..k]), Line(order[k]), after);
    assert Render(items) == Itoa(|items|) + " notice(s):\n" + Lines(order[..k]) + Line(order[k]) + after;
  }

  lemma HeaderFirst(a: string, b: string, c: string, d: string)
    ensures a + (b + c + d) == a + b + c + d
  {}

  lemma {:induction false} LinesAfter(items: seq<Item>, k: nat)
    requires k < |items|
    ensures exists after :: Lines(items) == Lines(items[..k]) + Line(items[k]) + after
    decreases |items|
  {
    var front := items[..|items| - 1];
    if k == |front| {
      assert Lines(items) == Lines(items[..k]) + Line(items[k]) + "";
    } else {
      LinesAfter(front, k);
      assert front[..k] == items[..k];
      var after :| Lines(front) == Lines(front[..k]) + Line(front[k]) + after;
      assert Lines(items) == Lines(items[..k]) + Line(items[k]) + (after + Line(items[|items| - 1]));
    }
  }
}
