/**
 * The sample extraction of src/handler.rs. A problem page is modelled by what
 * the selectors see: every `div#task-statement`, and under each the `pre`
 * elements in document order, each with its text nodes and a description of
 * the node right before it.
 */
module Samples {
  import opened Text

  /** The first child node of an element. */
  datatype FirstChild = NoChildren | TextNode(text: string) | OtherNode

  /** The sibling node right before a `pre`: none, a node that is not an element, or an element. */
  datatype Sibling = NoSibling | NonElement | Element(name: string, first: FirstChild)

  /** A `pre` element: the text nodes under it, in order, and its previous sibling. */
  datatype Pre = Pre(texts: seq<string>, prev: Sibling)

  /** The `div#task-statement` elements of a page, in document order, each with its `pre` elements. */
  datatype ProblemPage = ProblemPage(statements: seq<seq<Pre>>)

  const INPUT_MARKER: string := "入力例"
  const OUTPUT_MARKER: string := "出力例"

  /** A heading text marks a sample when it contains either marker anywhere. */
  predicate IsMarkerText(t: string)
  {
    Contains(t, INPUT_MARKER) || Contains(t, OUTPUT_MARKER)
  }

  /** The previous sibling is an `h3` whose first child is a text node holding a marker. */
  predicate IsSampleHeading(prev: Sibling)
  {
    prev.Element? && prev.name == "h3" && prev.first.TextNode? && IsMarkerText(prev.first.text)
  }

  /** `pre.text().collect::<String>()`: the text nodes one after another. */
  function Concat(texts: seq<string>): (r: string)
    ensures |texts| == 1 ==> r == texts[0]
  {
    if texts == [] then [] else Concat(texts[..|texts| - 1]) + texts[|texts| - 1]
  }

  /** Concatenating two runs of text nodes is concatenating their texts. */
  lemma {:induction false} ConcatAppend(a: seq<string>, b: seq<string>)
    ensures Concat(a + b) == Concat(a) + Concat(b)
    decreases |b|
  {
    if b == [] {
      assert a + b == a;
    } else {
      var front := b[..|b| - 1];
      assert (a + b)[..|a + b| - 1] == a + front;
      ConcatAppend(a, front);
    }
  }

  /** The first text node comes first, followed by the rest in order. */
  lemma ConcatFront(texts: seq<string>)
    requires texts != []
    ensures Concat(texts) == texts[0] + Concat(texts[1..])
  {
    assert texts == [texts[0]] + texts[1..];
    ConcatAppend([texts[0]], texts[1..]);
  }

  /** The texts of the `pre` elements preceded by a sample heading, in document order. */
  function Blocks(pres: seq<Pre>): (r: seq<string>)
    ensures |r| <= |pres|
  {
    if pres == [] then []
    else
      var last := pres[|pres| - 1];
      Blocks(pres[..|pres| - 1]) + if IsSampleHeading(last.prev) then [Concat(last.texts)] else []
  }

  /** Collecting keeps document order: the blocks of two runs of `pre` elements follow each other. */
  lemma {:induction false} BlocksAppend(a: seq<Pre>, b: seq<Pre>)
    ensures Blocks(a + b) == Blocks(a) + Blocks(b)
    decreases |b|
  {
    if b == [] {
      assert a + b == a;
    } else {
      assert (a + b)[..|a + b| - 1] == a + b[..|b| - 1];
      BlocksAppend(a, b[..|b| - 1]);
    }
  }

  /** `chunks_exact(2)`: consecutive blocks paired up; an odd last block is dropped. */
  function Pairs(blocks: seq<string>): (r: seq<(string, string)>)
    ensures |r| == |blocks| / 2
    ensures forall i :: 0 <= i < |r| ==> r[i] == (blocks[2 * i], blocks[2 * i + 1])
  {
    if |blocks| < 2 then [] else [(blocks[0], blocks[1])] + Pairs(blocks[2..])
  }

  /** Every pair written out again, input then output. */
  function Flatten(pairs: seq<(string, string)>): (r: seq<string>)
    ensures |r| == 2 * |pairs|
  {
    if pairs == [] then [] else [pairs[0].0, pairs[0].1] + Flatten(pairs[1..])
  }

  /** Pairing loses nothing but an odd last block. */
  lemma {:induction false} FlattenPairs(blocks: seq<string>)
    ensures Flatten(Pairs(blocks)) == blocks[..|blocks| / 2 * 2]
  {
    if |blocks| >= 2 {
      FlattenPairs(blocks[2..]);
      assert Pairs(blocks)[1..] == Pairs(blocks[2..]);
      assert blocks[..|blocks| / 2 * 2] == [blocks[0], blocks[1]] + blocks[2..][..|blocks[2..]| / 2 * 2];
    }
  }

  /** Written-out pairs are paired up again exactly. */
  lemma {:induction false} PairsFlatten(pairs: seq<(string, string)>)
    ensures Pairs(Flatten(pairs)) == pairs
  {
    if pairs != [] {
      PairsFlatten(pairs[1..]);
      assert Flatten(pairs)[2..] == Flatten(pairs[1..]);
    }
  }

  /** An odd number of blocks is paired as if the last were missing. */
  lemma OddBlockDropped(blocks: seq<string>)
    requires |blocks| % 2 == 1
    ensures Pairs(blocks) == Pairs(blocks[..|blocks| - 1])
  {
    var shorter := blocks[..|blocks| - 1];
    assert |Pairs(blocks)| == |Pairs(shorter)|;
    forall i | 0 <= i < |Pairs(blocks)| ensures Pairs(blocks)[i] == Pairs(shorter)[i] {
      assert shorter[2 * i] == blocks[2 * i] && shorter[2 * i + 1] == blocks[2 * i + 1];
    }
  }

  /** What `extract_sample_data` returns: the pairs of the first statement; nothing when there is none. */
  function SampleData(page: ProblemPage): seq<(string, string)>
  {
    if page.statements == [] then [] else Pairs(Blocks(page.statements[0]))
  }

  /** `extract_sample_data`: scan the first statement's `pre` elements, keep the marked ones, pair them. */
  method ExtractSampleData(page: ProblemPage) returns (samples: seq<(string, string)>)
    ensures samples == SampleData(page)
    ensures |samples| == if page.statements == [] then 0 else |Blocks(page.statements[0])| / 2
  {
    var blocks: seq<string> := [];
    if page.statements != [] {
      var statement := page.statements[0];
      for i := 0 to |statement|
        invariant blocks == Blocks(statement[..i])
      {
        assert statement[..i + 1][..i] == statement[..i];
        var pre := statement[i];
        if pre.prev.Element? {
          if pre.prev.name == "h3" && !pre.prev.first.NoChildren? {
            if pre.prev.first.TextNode? {
              if Contains(pre.prev.first.text, INPUT_MARKER) || Contains(pre.prev.first.text, OUTPUT_MARKER) {
                blocks := blocks + [Concat(pre.texts)];
              }
            }
          }
        }
      }
      assert statement[..|statement|] == statement;
    }
    samples := Pairs(blocks);
  }

  /** A text without the first character of a pattern does not contain it. */
  lemma AbsentFirstChar(s: string, pat: string)
    requires pat != [] && pat[0] !in s
    ensures !Contains(s, pat)
  {
    forall j | 0 <= j <= |s| ensures !OccursAt(s, pat, j) {
      if j + |pat| <= |s| {
        assert s[j..j + |pat|][0] == s[j];
      }
    }
  }

  /** Headings without the characters that begin the markers, such as English ones, mark nothing. */
  lemma EnglishHeadingIgnored(text: string)
    requires '入' !in text && '出' !in text
    ensures !IsSampleHeading(Element("h3", TextNode(text)))
  {
    AbsentFirstChar(text, INPUT_MARKER);
    AbsentFirstChar(text, OUTPUT_MARKER);
  }

  /** A marker anywhere in the heading text counts, not only at its start. */
  lemma MarkerAnywhere(before: string, after: string)
    ensures IsSampleHeading(Element("h3", TextNode(before + INPUT_MARKER + after)))
    ensures IsSampleHeading(Element("h3", TextNode(before + OUTPUT_MARKER + after)))
  {
    var t := before + INPUT_MARKER + after;
    assert t[|before|..|before| + |INPUT_MARKER|] == INPUT_MARKER;
    ContainsAt(t, INPUT_MARKER, |before|);
    var u := before + OUTPUT_MARKER + after;
    assert u[|before|..|before| + |OUTPUT_MARKER|] == OUTPUT_MARKER;
    ContainsAt(u, OUTPUT_MARKER, |before|);
  }
}
