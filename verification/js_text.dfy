/**
 * The bits of JavaScript string semantics the handlers depend on: the
 * truthiness test `if (x)` on a request field and `String.prototype.split(",")`.
 */
module JsText {

  /**
   * `if (x)` on a string-valued request field. A field that is absent from
   * the request body is modelled as the empty string, which is falsy too.
   */
  predicate Truthy(s: string)
  {
    s != ""
  }

  /** `s.split(",")`: the pieces between commas, in order; "" splits into [""]. */
  function SplitComma(s: string): (parts: seq<string>)
    ensures |parts| >= 1
    ensures forall k :: 0 <= k < |parts| ==> ',' !in parts[k]
  {
    if |s| == 0 then [""]
    else
      var rest := SplitComma(s[1..]);
      if s[0] == ',' then [""] + rest
      else [[s[0]] + rest[0]] + rest[1..]
  }

  /** `parts.join(",")`, the inverse of SplitComma. */
  function JoinComma(parts: seq<string>): (joined: string)
    requires |parts| >= 1
  {
    if |parts| == 1 then parts[0] else parts[0] + "," + JoinComma(parts[1..])
  }

  /** Splitting loses nothing: joining the pieces back with commas gives the input. */
  lemma {:induction false} JoinSplit(s: string)
    ensures JoinComma(SplitComma(s)) == s
  {
    if |s| > 0 {
      var rest := SplitComma(s[1..]);
      JoinSplit(s[1..]);
      if s[0] == ',' {
        assert SplitComma(s) == [""] + rest;
        assert JoinComma([""] + rest) == "" + "," + JoinComma(rest);
        assert s == [','] + s[1..];
      } else if |rest| == 1 {
        assert SplitComma(s) == [[s[0]] + rest[0]];
        assert s == [s[0]] + s[1..];
      } else {
        var parts := [[s[0]] + rest[0]] + rest[1..];
        assert SplitComma(s) == parts;
        assert parts[1..] == rest[1..];
        assert JoinComma(rest) == rest[0] + "," + JoinComma(rest[1..]);
        assert s == [s[0]] + s[1..];
      }
    }
  }

  /** A comma-free prefix glues onto the first piece of what follows it. */
  lemma {:induction false} SplitCommaFreePrefix(a: string, t: string)
    requires ',' !in a
    ensures SplitComma(a + t) == [a + SplitComma(t)[0]] + SplitComma(t)[1..]
  {
    if |a| == 0 {
      var tail := SplitComma(t);
      assert a + t == t && a + tail[0] == tail[0];
      assert tail == [tail[0]] + tail[1..];
    } else {
      var tail := SplitComma(t);
      SplitCommaFreePrefix(a[1..], t);
      assert (a + t)[0] == a[0] && (a + t)[1..] == a[1..] + t;
      var rest := SplitComma(a[1..] + t);
      assert rest[0] == a[1..] + tail[0] && rest[1..] == tail[1..];
      assert [a[0]] + rest[0] == a + tail[0];
    }
  }

  /** Comma-free pieces survive a join followed by a split. */
  lemma {:induction false} SplitJoin(parts: seq<string>)
    requires |parts| >= 1
    requires forall k :: 0 <= k < |parts| ==> ',' !in parts[k]
    ensures SplitComma(JoinComma(parts)) == parts
  {
    if |parts| == 1 {
      SplitCommaFreePrefix(parts[0], "");
      assert parts[0] + "" == parts[0];
    } else {
      var tail := JoinComma(parts[1..]);
      SplitJoin(parts[1..]);
      SplitCommaFreePrefix(parts[0], "," + tail);
      assert ("," + tail)[1..] == tail;
      var after := SplitComma("," + tail);
      assert after == [""] + parts[1..];
      assert after[0] == "" && after[1..] == parts[1..];
      assert parts[0] + "," + tail == parts[0] + ("," + tail);
      assert parts[0] + after[0] == parts[0];
      assert parts == [parts[0]] + parts[1..];
    }
  }
}
