/** Joining a list of texts with a separator, as Python's `sep.join(parts)` does,
    and its inverse, splitting a text at every occurrence of a separator, as
    `text.split(sep)` does. Splitting is the reference against which the layout
    of a joined text is stated. */
module Strings {

  /** `sep.join(parts)`: the parts in order, with `sep` between neighbours. */
  function Join(parts: seq<string>, sep: string): (r: string)
    ensures parts != [] ==> parts[0] <= r
    ensures parts == [] ==> r == ""
  {
    if parts == [] then ""
    else if |parts| == 1 then parts[0]
    else parts[0] + sep + Join(parts[1..], sep)
  }

  /** `s.split(sep)` for a non-empty separator: the maximal pieces of `s` between
      occurrences of `sep`, scanning left to right. Never empty: splitting the
      empty text gives one empty piece. */
  function Split(s: string, sep: string): (parts: seq<string>)
    requires sep != []
    ensures |parts| >= 1
    decreases |s|
  {
    if s == [] then [""]
    else if sep <= s then [""] + Split(s[|sep|..], sep)
    else
      var rest := Split(s[1..], sep);
      [[s[0]] + rest[0]] + rest[1..]
  }

  /** A text that does not contain the separator's first character is glued in
      front of the first piece of whatever follows it. */
  lemma {:induction false} SplitPrefix(a: string, t: string, sep: string)
    requires sep != [] && sep[0] !in a
    ensures Split(a + t, sep) == [a + Split(t, sep)[0]] + Split(t, sep)[1..]
    decreases |a|
  {
    if a == [] {
      var pieces := Split(t, sep);
      assert a + t == t && a + pieces[0] == pieces[0];
      assert pieces == [pieces[0]] + pieces[1..];
    } else {
      assert (a + t)[0] == a[0] != sep[0];
      assert !(sep <= a + t);
      assert (a + t)[1..] == a[1..] + t;
      SplitPrefix(a[1..], t, sep);
      assert [a[0]] + (a[1..] + Split(t, sep)[0]) == a + Split(t, sep)[0];
    }
  }

  /** Splitting a text free of the separator's first character gives that text alone. */
  lemma SplitNoSeparator(a: string, sep: string)
    requires sep != [] && sep[0] !in a
    ensures Split(a, sep) == [a]
  {
    SplitPrefix(a, "", sep);
    assert a + "" == a;
  }

  /** Round trip: splitting a joined list gives the list back, provided no part
      contains the separator's first character. */
  lemma {:induction false} SplitJoin(parts: seq<string>, sep: string)
    requires sep != [] && parts != []
    requires forall i :: 0 <= i < |parts| ==> sep[0] !in parts[i]
    ensures Split(Join(parts, sep), sep) == parts
    decreases |parts|
  {
    if |parts| == 1 {
      SplitNoSeparator(parts[0], sep);
    } else {
      var tail := Join(parts[1..], sep);
      SplitJoin(parts[1..], sep);
      assert sep <= sep + tail;
      assert (sep + tail)[|sep|..] == tail;
      assert Split(sep + tail, sep) == [""] + parts[1..];
      SplitPrefix(parts[0], sep + tail, sep);
      assert parts[0] + sep + tail == parts[0] + (sep + tail);
      assert parts[0] + "" == parts[0];
      assert parts == [parts[0]] + parts[1..];
    }
  }

  /** Gluing a character onto the first piece glues it onto the front of the joined text. */
  lemma JoinGlue(c: char, parts: seq<string>, sep: string)
    requires parts != []
    ensures Join([[c] + parts[0]] + parts[1..], sep) == [c] + Join(parts, sep)
  {
  }

  /** The other round trip: joining the pieces of a split gives the text back. */
  lemma {:induction false} JoinSplit(s: string, sep: string)
    requires sep != []
    ensures Join(Split(s, sep), sep) == s
    decreases |s|
  {
    if s == [] {
    } else if sep <= s {
      var rest := s[|sep|..];
      JoinSplit(rest, sep);
      var pieces := [""] + Split(rest, sep);
      assert pieces[1..] == Split(rest, sep);
      assert Join(pieces, sep) == "" + sep + rest;
      assert s == sep + rest;
    } else {
      JoinSplit(s[1..], sep);
      JoinGlue(s[0], Split(s[1..], sep), sep);
      assert s == [s[0]] + s[1..];
    }
  }
}
