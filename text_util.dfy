/**
 * Shared vocabulary of the model: an Option type for the source's null
 * values and swallowed exceptions, text edits as (offset, length, text)
 * triples, list joining, character classes and searching in strings.
 */
module TextUtil {

  datatype Option<+T> = None | Some(value: T) {
    predicate IsFailure() { None? }
    function PropagateFailure<U>(): Option<U> requires None? { None }
    function Extract(): T requires Some? { value }
  }

  /** A text edit handed to the host: replace `length` characters at `offset` by `text`. */
  datatype Edit = Edit(offset: int, length: int, text: string)

  /** An insertion is a replacement of nothing. */
  function Insert(offset: int, text: string): Edit {
    Edit(offset, 0, text)
  }

  /** The edit addresses a range that lies inside `doc`. */
  predicate InRange(doc: string, e: Edit) {
    0 <= e.offset && 0 <= e.length && e.offset + e.length <= |doc|
  }

  /** The document after the host applies one edit. */
  function ApplyEdit(doc: string, e: Edit): (r: string)
    requires InRange(doc, e)
    ensures |r| == |doc| - e.length + |e.text|
  {
    doc[..e.offset] + e.text + doc[e.offset + e.length..]
  }

  /**
   * Applying an edit keeps the text before its offset, puts its text at the
   * offset, and keeps the text after the replaced range.
   */
  lemma ApplyEditSplices(doc: string, e: Edit)
    requires InRange(doc, e)
    ensures var after := ApplyEdit(doc, e);
            && after[..e.offset] == doc[..e.offset]
            && after[e.offset..e.offset + |e.text|] == e.text
            && after[e.offset + |e.text|..] == doc[e.offset + e.length..]
  {
  }

  /** `items` separated by `sep`, with no separator before the first or after the last. */
  function Join(items: seq<string>, sep: string): string
  {
    if |items| == 0 then ""
    else if |items| == 1 then items[0]
    else Join(items[..|items| - 1], sep) + sep + items[|items| - 1]
  }

  /** Every item followed by `sep`, as a string built by appending in a loop. */
  function Terminated(items: seq<string>, sep: string): string
  {
    if |items| == 0 then "" else Terminated(items[..|items| - 1], sep) + items[|items| - 1] + sep
  }

  /** Appending one more item and its separator to a terminated list, after some opening text. */
  lemma TerminatedSnoc(open: string, items: seq<string>, x: string, sep: string)
    ensures open + Terminated(items, sep) + x + sep == open + Terminated(items + [x], sep)
  {
    assert (items + [x])[..|items|] == items;
    assert Terminated(items + [x], sep) == Terminated(items, sep) + x + sep;
  }

  /** Cutting the last |s| characters of x + s gives x back. */
  lemma DropSuffix(x: string, s: string)
    ensures (x + s)[..|x|] == x
  {
  }

  /** Cutting the last separator off a terminated list, after some opening text, leaves the opening and the join. */
  lemma CutLastSeparator(open: string, items: seq<string>, sep: string)
    requires |items| > 0
    ensures var acc := open + Terminated(items, sep);
            |sep| <= |acc| && acc[..|acc| - |sep|] == open + Join(items, sep)
  {
    TerminatedIsJoined(items, sep);
    var joined := open + Join(items, sep);
    assert open + Terminated(items, sep) == joined + sep;
    DropSuffix(joined, sep);
  }

  /** a + b + c starts with a. */
  lemma PrefixOfConcat(a: string, b: string, c: string)
    ensures StartsWith(a + b + c, a) && StartsWith(a + b, a)
  {
    assert (a + b + c)[..|a|] == a;
    assert (a + b)[..|a|] == a;
  }

  /** Dropping the last separator of a terminated list gives the joined list. */
  lemma {:induction false} TerminatedIsJoined(items: seq<string>, sep: string)
    requires |items| > 0
    ensures Terminated(items, sep) == Join(items, sep) + sep
  {
    if |items| > 1 {
      var init := items[..|items| - 1];
      assert init[..|init| - 1] == items[..|items| - 2];
      TerminatedIsJoined(init, sep);
    }
  }

  /** Appending one more item to a non-empty join adds one separator and the item. */
  lemma JoinSnoc(items: seq<string>, x: string, sep: string)
    requires |items| > 0
    ensures Join(items + [x], sep) == Join(items, sep) + sep + x
  {
    assert (items + [x])[..|items|] == items;
  }

  /** Java's Character.isWhitespace restricted to ASCII. */
  predicate IsWhitespace(c: char) {
    c == ' ' || c == '\t' || c == '\n' || c == '\U{B}' || c == '\U{C}' || c == '\r'
    || ('\U{1C}' <= c <= '\U{1F}')
  }

  predicate IsAsciiLetter(c: char) { ('a' <= c <= 'z') || ('A' <= c <= 'Z') }

  predicate IsAsciiDigit(c: char) { '0' <= c <= '9' }

  /** Java's String.indexOf(char): the first index of `c`, or -1. */
  function IndexOf(s: string, c: char): (r: int)
    ensures -1 <= r < |s|
    ensures r == -1 <==> c !in s
    ensures r >= 0 ==> s[r] == c && c !in s[..r]
  {
    if |s| == 0 then -1
    else if s[0] == c then 0
    else
      var k := IndexOf(s[1..], c);
      assert s[1..][..if k >= 0 then k else 0] == s[1..1 + if k >= 0 then k else 0];
      if k == -1 then -1 else k + 1
  }

  /** `p` is a prefix of `s`. */
  predicate StartsWith(s: string, p: string) {
    |p| <= |s| && s[..|p|] == p
  }
}
