/**
 * The email-format check of registration: the regular expression
 * /^[^\s@]+@[^\s@]+\.[^\s@]+$/ read literally, and a proof that it accepts
 * exactly the strings with no whitespace, exactly one '@', a non-empty part
 * before it and, after it, a '.' with text on both sides.
 */
module EmailFormat {

  /** A character of the class `\s` of JavaScript regular expressions. */
  predicate IsJsWhitespace(c: char)
  {
    || c == ' ' || c == '\t' || c == '\n' || c == '\r' || c == '\U{B}' || c == '\U{C}'
    || c == '\U{A0}' || c == '\U{1680}' || ('\U{2000}' <= c <= '\U{200A}')
    || c == '\U{2028}' || c == '\U{2029}' || c == '\U{202F}' || c == '\U{205F}'
    || c == '\U{3000}' || c == '\U{FEFF}'
  }

  /** The class `[^\s@]`. */
  predicate PlainChar(c: char)
  {
    !IsJsWhitespace(c) && c != '@'
  }

  /** `[^\s@]+` matching the whole of `t`. */
  predicate PlainRun(t: string)
  {
    |t| > 0 && forall k :: 0 <= k < |t| ==> PlainChar(t[k])
  }

  /**
   * emailRegex.test(s): `s` splits as local '@' host '.' tail, each of the three
   * parts a non-empty run of characters that are neither whitespace nor '@'.
   */
  predicate MatchesEmailRegex(s: string)
  {
    exists at, dot | 0 <= at < dot < |s| ::
      && s[at] == '@' && s[dot] == '.'
      && PlainRun(s[..at]) && PlainRun(s[at + 1..dot]) && PlainRun(s[dot + 1..])
  }

  predicate NoWhitespace(s: string)
  {
    forall k :: 0 <= k < |s| ==> !IsJsWhitespace(s[k])
  }

  /** A '.' that is neither the first nor the last character. */
  predicate InnerDot(d: string)
  {
    exists k | 0 < k < |d| - 1 :: d[k] == '.'
  }

  /** The format in words: no whitespace, one '@', text before it, an inner '.' after it. */
  predicate DescribedEmail(s: string)
  {
    && NoWhitespace(s)
    && multiset(s)['@'] == 1
    && exists at | 0 < at < |s| :: s[at] == '@' && InnerDot(s[at + 1..])
  }

  /** With a single '@' in `s`, position `at` is the only place it occurs. */
  lemma SingleAt(s: string, at: nat)
    requires at < |s| && s[at] == '@' && multiset(s)['@'] == 1
    ensures forall k :: 0 <= k < |s| && k != at ==> s[k] != '@'
  {
    assert s == s[..at] + [s[at]] + s[at + 1..];
    assert multiset(s) == multiset(s[..at]) + multiset{'@'} + multiset(s[at + 1..]);
    assert '@' !in s[..at] && '@' !in s[at + 1..];
    forall k | 0 <= k < |s| && k != at
      ensures s[k] != '@'
    {
      if k < at {
        assert s[k] == s[..at][k];
      } else {
        assert s[k] == s[at + 1..][k - at - 1];
      }
    }
  }

  /** Every string the regular expression accepts has the described format. */
  lemma RegexImpliesDescribed(s: string)
    requires MatchesEmailRegex(s)
    ensures DescribedEmail(s)
  {
    var at, dot :| 0 <= at < dot < |s| && s[at] == '@' && s[dot] == '.'
      && PlainRun(s[..at]) && PlainRun(s[at + 1..dot]) && PlainRun(s[dot + 1..]);
    SplitIsDescribed(s, at, dot);
  }

  lemma SplitIsDescribed(s: string, at: nat, dot: nat)
    requires at < dot < |s| && s[at] == '@' && s[dot] == '.'
    requires PlainRun(s[..at]) && PlainRun(s[at + 1..dot]) && PlainRun(s[dot + 1..])
    ensures DescribedEmail(s)
  {
    var local, host, tail := s[..at], s[at + 1..dot], s[dot + 1..];
    var d := s[at + 1..];
    assert NoWhitespace(s) by {
      forall k | 0 <= k < |s|
        ensures !IsJsWhitespace(s[k])
      {
        if k < at {
          assert s[k] == local[k] && PlainChar(local[k]);
        } else if at < k < dot {
          assert s[k] == host[k - at - 1] && PlainChar(host[k - at - 1]);
        } else if dot < k {
          assert s[k] == tail[k - dot - 1] && PlainChar(tail[k - dot - 1]);
        }
      }
    }
    assert multiset(s)['@'] == 1 by {
      assert '@' !in local by {
        forall j | 0 <= j < |local| ensures local[j] != '@' { assert PlainChar(local[j]); }
      }
      assert '@' !in d by {
        assert d == host + ['.'] + tail;
        forall j | 0 <= j < |host| ensures host[j] != '@' { assert PlainChar(host[j]); }
        forall j | 0 <= j < |tail| ensures tail[j] != '@' { assert PlainChar(tail[j]); }
      }
      assert s == local + ['@'] + d;
      assert multiset(s) == multiset(local) + multiset{'@'} + multiset(d);
    }
    assert InnerDot(d) by {
      assert d[dot - at - 1] == '.';
    }
  }

  /** Every string of the described format is accepted by the regular expression. */
  lemma DescribedImpliesRegex(s: string)
    requires DescribedEmail(s)
    ensures MatchesEmailRegex(s)
  {
    var at :| 0 < at < |s| && s[at] == '@' && InnerDot(s[at + 1..]);
    var d := s[at + 1..];
    var k :| 0 < k < |d| - 1 && d[k] == '.';
    var dot := at + 1 + k;
    SingleAt(s, at);
    assert s[dot] == '.';
    var local, host, tail := s[..at], s[at + 1..dot], s[dot + 1..];
    assert PlainRun(local) by {
      forall j | 0 <= j < |local| ensures PlainChar(local[j]) {
        assert local[j] == s[j];
      }
    }
    assert PlainRun(host) by {
      forall j | 0 <= j < |host| ensures PlainChar(host[j]) {
        assert host[j] == s[at + 1 + j];
      }
    }
    assert PlainRun(tail) by {
      forall j | 0 <= j < |tail| ensures PlainChar(tail[j]) {
        assert tail[j] == s[dot + 1 + j];
      }
    }
  }

  /** The regular expression accepts exactly the strings of the described format. */
  lemma EmailRegexCharacterised(s: string)
    ensures MatchesEmailRegex(s) <==> DescribedEmail(s)
  {
    if MatchesEmailRegex(s) {
      RegexImpliesDescribed(s);
    }
    if DescribedEmail(s) {
      DescribedImpliesRegex(s);
    }
  }
}
