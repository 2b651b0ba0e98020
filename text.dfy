/**
 * String assembly used by the prompt handlers: `str.format` with the one named
 * field the templates use, and `str.join` with a splitter that reads a joined
 * list back.
 */
module Text {

  /** The only replacement field that occurs in the joke templates. */
  const Placeholder: string := "{topic}"

  /** `s` holds no character that `str.format` treats specially. */
  predicate BraceFree(s: string) {
    '{' !in s && '}' !in s
  }

  predicate StartsWith(s: string, p: string) {
    |p| <= |s| && s[..|p|] == p
  }

  /** Number of occurrences of `c` in `s`. */
  function Count(s: string, c: char): nat {
    if s == [] then 0 else (if s[0] == c then 1 else 0) + Count(s[1..], c)
  }

  /**
   * `template.format(topic=topic)`: every `{topic}` field is replaced by `topic`;
   * all other characters are copied.
   */
  function Format(template: string, topic: string): (r: string)
    ensures BraceFree(template) ==> r == template
    decreases |template|
  {
    if template == [] then []
    else if StartsWith(template, Placeholder) then
      assert template[0] == template[..|Placeholder|][0] == '{';
      topic + Format(template[|Placeholder|..], topic)
    else
      assert template == [template[0]] + template[1..];
      [template[0]] + Format(template[1..], topic)
  }

  /** Text before the first brace is copied verbatim. */
  lemma {:induction false} FormatCopiesBraceFreePrefix(p: string, rest: string, topic: string)
    requires BraceFree(p)
    ensures Format(p + rest, topic) == p + Format(rest, topic)
    decreases |p|
  {
    if p != [] {
      var s := p + rest;
      assert !StartsWith(s, Placeholder) by {
        assert s[0] == p[0] != '{';
      }
      assert s[1..] == p[1..] + rest;
      assert BraceFree(p[1..]) by { assert p == [p[0]] + p[1..]; }
      FormatCopiesBraceFreePrefix(p[1..], rest, topic);
      calc {
        Format(s, topic);
        [s[0]] + Format(s[1..], topic);
        [p[0]] + (p[1..] + Format(rest, topic));
        { assert p == [p[0]] + p[1..]; }
        p + Format(rest, topic);
      }
    } else {
      assert p + rest == rest;
    }
  }

  /**
   * A template with one field between brace-free text formats to the text
   * around the field with the topic in its place.
   */
  lemma FormatSingleField(prefix: string, suffix: string, topic: string)
    requires BraceFree(prefix) && BraceFree(suffix)
    ensures Format(prefix + Placeholder + suffix, topic) == prefix + topic + suffix
  {
    var tail := Placeholder + suffix;
    assert prefix + Placeholder + suffix == prefix + tail;
    FormatCopiesBraceFreePrefix(prefix, tail, topic);
    assert StartsWith(tail, Placeholder);
    assert tail[|Placeholder|..] == suffix;
  }

  lemma {:induction false} CountAppend(a: string, b: string, c: char)
    ensures Count(a + b, c) == Count(a, c) + Count(b, c)
    decreases |a|
  {
    if a == [] {
      assert a + b == b;
    } else {
      assert (a + b)[1..] == a[1..] + b;
      CountAppend(a[1..], b, c);
    }
  }

  lemma {:induction false} CountAbsent(s: string, c: char)
    ensures c !in s <==> Count(s, c) == 0
    decreases |s|
  {
    if s != [] {
      CountAbsent(s[1..], c);
      assert s == [s[0]] + s[1..];
    }
  }

  /**
   * Brace-free text around one field gives a template with exactly one `{`
   * and exactly one `}`, both belonging to the field at offset `|prefix|`.
   */
  lemma SingleFieldBraces(prefix: string, suffix: string)
    requires BraceFree(prefix) && BraceFree(suffix)
    ensures var t := prefix + Placeholder + suffix;
      && Count(t, '{') == 1 && Count(t, '}') == 1
      && t[|prefix|..|prefix| + |Placeholder|] == Placeholder
  {
    var t := prefix + Placeholder + suffix;
    CountAppend(prefix + Placeholder, suffix, '{');
    CountAppend(prefix, Placeholder, '{');
    CountAppend(prefix + Placeholder, suffix, '}');
    CountAppend(prefix, Placeholder, '}');
    CountAbsent(prefix, '{');
    CountAbsent(prefix, '}');
    CountAbsent(suffix, '{');
    CountAbsent(suffix, '}');
  }

  /** The pieces written one after another. */
  function Concat(pieces: seq<string>): string {
    if pieces == [] then "" else pieces[0] + Concat(pieces[1..])
  }

  /** Text assembled from brace-free pieces is brace-free. */
  lemma {:induction false} ConcatBraceFree(pieces: seq<string>)
    requires forall i :: 0 <= i < |pieces| ==> BraceFree(pieces[i])
    ensures BraceFree(Concat(pieces))
    decreases |pieces|
  {
    if pieces != [] {
      ConcatBraceFree(pieces[1..]);
    }
  }

  /** `sep.join(parts)`. */
  function Join(parts: seq<string>, sep: string): string {
    if |parts| == 0 then ""
    else if |parts| == 1 then parts[0]
    else parts[0] + sep + Join(parts[1..], sep)
  }

  /** `s.split(sep)`: the pieces between occurrences of `sep`, scanning left to right. */
  function Split(s: string, sep: string): (r: seq<string>)
    requires |sep| > 0
    ensures |r| > 0
    decreases |s|
  {
    if s == [] then [""]
    else if StartsWith(s, sep) then [""] + Split(s[|sep|..], sep)
    else
      var rest := Split(s[1..], sep);
      [[s[0]] + rest[0]] + rest[1..]
  }

  /** Text that cannot start a separator is glued onto the first piece. */
  lemma {:induction false} SplitPlainPrefix(p: string, rest: string, sep: string)
    requires |sep| > 0 && sep[0] !in p
    ensures var r := Split(rest, sep);
      Split(p + rest, sep) == [p + r[0]] + r[1..]
    decreases |p|
  {
    if p == [] {
      assert p + rest == rest;
      var r := Split(rest, sep);
      assert r == [r[0]] + r[1..];
      assert p + r[0] == r[0];
    } else {
      var s := p + rest;
      assert s[0] == p[0] != sep[0];
      assert !StartsWith(s, sep);
      assert s[1..] == p[1..] + rest;
      SplitPlainPrefix(p[1..], rest, sep);
      assert [p[0]] + (p[1..] + Split(rest, sep)[0]) == p + Split(rest, sep)[0];
    }
  }

  /** Splitting reads back a non-empty list joined with a separator none of its items could start. */
  lemma {:induction false} SplitJoin(parts: seq<string>, sep: string)
    requires |sep| > 0 && |parts| > 0
    requires forall i :: 0 <= i < |parts| ==> sep[0] !in parts[i]
    ensures Split(Join(parts, sep), sep) == parts
    decreases |parts|
  {
    if |parts| == 1 {
      SplitPlainPrefix(parts[0], "", sep);
      assert parts[0] + "" == parts[0];
    } else {
      var tail := Join(parts[1..], sep);
      assert Join(parts, sep) == parts[0] + (sep + tail);
      SplitPlainPrefix(parts[0], sep + tail, sep);
      assert StartsWith(sep + tail, sep);
      assert (sep + tail)[|sep|..] == tail;
      SplitJoin(parts[1..], sep);
      var r := Split(sep + tail, sep);
      assert r == [""] + parts[1..];
      assert r[0] == "" && r[1..] == parts[1..];
      assert parts[0] + "" == parts[0];
      assert parts == [parts[0]] + parts[1..];
    }
  }

  /**
   * A list joined between a fixed lead and tail can be cut out of the text
   * again and split back into the list.
   */
  lemma {:induction false} JoinedListReadsBack(lead: string, parts: seq<string>, sep: string, tail: string)
    requires |sep| > 0 && |parts| > 0
    requires forall i :: 0 <= i < |parts| ==> sep[0] !in parts[i]
    ensures var d := lead + Join(parts, sep) + tail;
      && |lead| + |tail| <= |d|
      && d[..|lead|] == lead && d[|d| - |tail|..] == tail
      && d[|lead|..|d| - |tail|] == Join(parts, sep)
      && Split(d[|lead|..|d| - |tail|], sep) == parts
  {
    var j := Join(parts, sep);
    var d := lead + j + tail;
    assert d[|lead|..|d| - |tail|] == j;
    assert d[..|lead|] == lead;
    assert d[|d| - |tail|..] == tail;
    SplitJoin(parts, sep);
  }
}
