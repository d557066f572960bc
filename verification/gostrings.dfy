/**
 * The few pieces of Go's `strings` and `fmt` packages that the tool relies on, written out over
 * `string` (a sequence of characters): `strings.Split` on ".", an ASCII `strings.ToUpper`,
 * `strings.TrimPrefix`, `strings.TrimSpace` and `fmt.Sprintf` for formats whose only verb is `%s`.
 */
module GoStrings {

  // ---------------------------------------------------------------------------------------------
  // strings.Split(s, ".") and its inverse strings.Join(parts, ".")

  /** The dot-separated fields of `s`; like Go, there is always at least one field. */
  function Split(s: string): (parts: seq<string>)
    ensures |parts| >= 1
    ensures forall i :: 0 <= i < |parts| ==> '.' !in parts[i]
    ensures |parts| >= 2 <==> '.' in s
  {
    if s == [] then [""]
    else
      var rest := Split(s[1..]);
      if s[0] == '.' then [""] + rest
      else [[s[0]] + rest[0]] + rest[1..]
  }

  /** The fields glued back together with "." between neighbours. */
  function Join(parts: seq<string>): string
    requires |parts| >= 1
  {
    if |parts| == 1 then parts[0] else parts[0] + "." + Join(parts[1..])
  }

  /** Joining the fields of `s` gives `s` back. */
  lemma {:induction false} JoinSplit(s: string)
    ensures Join(Split(s)) == s
  {
    if s != [] {
      var rest := Split(s[1..]);
      var parts := Split(s);
      JoinSplit(s[1..]);
      if s[0] == '.' {
        assert parts == [""] + rest;
        assert parts[1..] == rest;
        assert Join(parts) == "" + "." + s[1..];
      } else if |rest| == 1 {
        assert parts == [[s[0]] + rest[0]];
        assert Join(rest) == rest[0];
        assert Join(parts) == [s[0]] + s[1..];
      } else {
        assert parts == [[s[0]] + rest[0]] + rest[1..];
        assert parts[1..] == rest[1..];
        assert Join(rest) == rest[0] + "." + Join(rest[1..]);
        assert Join(parts) == [s[0]] + rest[0] + "." + Join(rest[1..]);
      }
      assert s == [s[0]] + s[1..];
    }
  }

  /** Splitting a dot-free prefix followed by more text extends the first field of the rest. */
  lemma {:induction false} SplitDotFreePrefix(a: string, t: string)
    requires '.' !in a
    ensures Split(a + t) == [a + Split(t)[0]] + Split(t)[1..]
  {
    if a == [] {
      assert a + t == t;
      assert a + Split(t)[0] == Split(t)[0];
      assert Split(t) == [Split(t)[0]] + Split(t)[1..];
    } else {
      var s := a + t;
      assert s[1..] == a[1..] + t;
      assert s[0] == a[0];
      SplitDotFreePrefix(a[1..], t);
      var rest := Split(s[1..]);
      assert rest == [a[1..] + Split(t)[0]] + Split(t)[1..];
      assert Split(s) == [[s[0]] + rest[0]] + rest[1..];
      assert rest[1..] == Split(t)[1..];
      assert [a[0]] + (a[1..] + Split(t)[0]) == a + Split(t)[0];
    }
  }

  /** Splitting dot-free fields joined with "." gives the fields back. */
  lemma {:induction false} SplitJoin(parts: seq<string>)
    requires |parts| >= 1
    requires forall i :: 0 <= i < |parts| ==> '.' !in parts[i]
    ensures Split(Join(parts)) == parts
  {
    if |parts| == 1 {
      SplitDotFreePrefix(parts[0], "");
      assert parts[0] + "" == parts[0];
    } else {
      SplitJoin(parts[1..]);
      var t := "." + Join(parts[1..]);
      SplitDotFreePrefix(parts[0], t);
      assert t[0] == '.' && t[1..] == Join(parts[1..]);
      assert Split(t) == [""] + parts[1..];
      assert parts[0] + Split(t)[0] == parts[0];
      assert Split(t)[1..] == parts[1..];
      assert Join(parts) == parts[0] + t;
      assert parts == [parts[0]] + parts[1..];
    }
  }

  // ---------------------------------------------------------------------------------------------
  // strings.ToUpper, restricted to ASCII letters

  function UpperChar(c: char): char
  {
    if 'a' <= c <= 'z' then (c as int - 32) as char else c
  }

  /** Lower-case ASCII letters become upper case; every other character is kept. */
  function ToUpperAscii(s: string): (u: string)
    ensures |u| == |s|
    ensures forall i :: 0 <= i < |s| ==> !('a' <= u[i] <= 'z')
    ensures forall i :: 0 <= i < |s| && !('a' <= s[i] <= 'z') ==> u[i] == s[i]
    ensures forall i :: 0 <= i < |s| && 'a' <= s[i] <= 'z' ==> u[i] as int == s[i] as int - 32
  {
    seq(|s|, i requires 0 <= i < |s| => UpperChar(s[i]))
  }

  /** Exactly the sixteen spellings of "head" in any mix of cases upper-case to "HEAD". */
  lemma UpperIsHead(s: string)
    ensures ToUpperAscii(s) == "HEAD" <==>
      && |s| == 4
      && (s[0] == 'H' || s[0] == 'h') && (s[1] == 'E' || s[1] == 'e')
      && (s[2] == 'A' || s[2] == 'a') && (s[3] == 'D' || s[3] == 'd')
  {
    var u := ToUpperAscii(s);
    if |s| == 4 {
      assert u[0] == UpperChar(s[0]) && u[1] == UpperChar(s[1]);
      assert u[2] == UpperChar(s[2]) && u[3] == UpperChar(s[3]);
      assert u == [u[0], u[1], u[2], u[3]];
    }
  }

  // ---------------------------------------------------------------------------------------------
  // strings.TrimPrefix and strings.TrimSpace

  predicate HasPrefix(s: string, prefix: string)
  {
    |prefix| <= |s| && s[..|prefix|] == prefix
  }

  /** `s` without `prefix` when it starts with it, `s` itself otherwise. */
  function TrimPrefix(s: string, prefix: string): (t: string)
    ensures HasPrefix(s, prefix) ==> prefix + t == s
    ensures !HasPrefix(s, prefix) ==> t == s
  {
    if HasPrefix(s, prefix) then s[|prefix|..] else s
  }

  /** White space as Go's `unicode.IsSpace` has it in the Latin-1 range. */
  predicate IsSpace(c: char)
  {
    c == ' ' || c == '\t' || c == '\n' || c == '\r' || c == '\U{000B}' || c == '\U{000C}'
    || c == '\U{0085}' || c == '\U{00A0}'
  }

  predicate AllSpace(s: string)
  {
    forall i :: 0 <= i < |s| ==> IsSpace(s[i])
  }

  /** Neither end of `s` is white space. */
  predicate Trimmed(s: string)
  {
    s == [] || (!IsSpace(s[0]) && !IsSpace(s[|s| - 1]))
  }

  /** The length of the white-space run that starts `s`. */
  function LeadingSpaces(s: string): (n: nat)
    ensures n <= |s| && AllSpace(s[..n])
    ensures n < |s| ==> !IsSpace(s[n])
  {
    if s == [] || !IsSpace(s[0]) then 0
    else
      var m := LeadingSpaces(s[1..]);
      assert s[..m + 1] == [s[0]] + s[1..][..m];
      1 + m
  }

  /** The length of the white-space run that ends `s`. */
  function TrailingSpaces(s: string): (n: nat)
    ensures n <= |s| && AllSpace(s[|s| - n..])
    ensures n < |s| ==> !IsSpace(s[|s| - 1 - n])
  {
    if s == [] || !IsSpace(s[|s| - 1]) then 0
    else
      var init := s[..|s| - 1];
      var m := TrailingSpaces(init);
      assert s[|s| - (m + 1)..] == init[|init| - m..] + [s[|s| - 1]];
      1 + m
  }

  /** `s` with white space removed from both ends: what is left starts and ends with a non-space. */
  function TrimSpace(s: string): (t: string)
    ensures Trimmed(t)
    ensures |t| <= |s|
    ensures AllSpace(s) ==> t == []
  {
    var rest := s[LeadingSpaces(s)..];
    rest[..|rest| - TrailingSpaces(rest)]
  }

  /** A white-space run of length `k` followed by a non-space (or the end) is the leading run. */
  lemma {:induction false} LeadingSpacesIs(s: string, k: nat)
    requires k <= |s| && AllSpace(s[..k])
    requires k < |s| ==> !IsSpace(s[k])
    ensures LeadingSpaces(s) == k
  {
    if k > 0 {
      assert IsSpace(s[..k][0]);
      assert s[1..][..k - 1] == s[..k][1..];
      LeadingSpacesIs(s[1..], k - 1);
    }
  }

  /** A white-space run of length `k` preceded by a non-space (or the start) is the trailing run. */
  lemma {:induction false} TrailingSpacesIs(s: string, k: nat)
    requires k <= |s| && AllSpace(s[|s| - k..])
    requires k < |s| ==> !IsSpace(s[|s| - 1 - k])
    ensures TrailingSpaces(s) == k
  {
    if k > 0 {
      var init := s[..|s| - 1];
      assert IsSpace(s[|s| - k..][k - 1]);
      assert init[|init| - (k - 1)..] == s[|s| - k..][..k - 1];
      TrailingSpacesIs(init, k - 1);
    }
  }

  /** TrimSpace removes exactly the surrounding white space and nothing of what it surrounds. */
  lemma {:induction false} TrimSpaceSurrounded(before: string, body: string, after: string)
    requires AllSpace(before) && AllSpace(after) && Trimmed(body)
    ensures TrimSpace(before + body + after) == body
  {
    var s := before + body + after;
    if body == [] {
      assert AllSpace(s) by {
        forall i | 0 <= i < |s| ensures IsSpace(s[i]) {
          if i < |before| { assert s[i] == before[i]; } else { assert s[i] == after[i - |before|]; }
        }
      }
    } else {
      assert s[..|before|] == before;
      assert s[|before|] == body[0];
      LeadingSpacesIs(s, |before|);
      var rest := s[|before|..];
      assert rest == body + after;
      assert rest[|rest| - |after|..] == after;
      assert rest[|rest| - 1 - |after|] == body[|body| - 1];
      TrailingSpacesIs(rest, |after|);
      assert rest[..|rest| - |after|] == body;
    }
  }

  // ---------------------------------------------------------------------------------------------
  // fmt.Sprintf for formats whose only verb is %s

  /** Every '%' of `format` starts a `%s` verb: the only verb the tool's format strings use. */
  predicate OnlyStringVerbs(format: string)
  {
    forall i :: 0 <= i < |format| && format[i] == '%' ==> i + 1 < |format| && format[i + 1] == 's'
  }

  /**
   * `fmt.Sprintf(format, args...)` with string arguments: each `%s` takes the next argument
   * verbatim, a `%s` with no argument left prints `%!s(MISSING)`, and arguments left over are
   * appended as `%!(EXTRA string=a, string=b)`.
   */
  function Sprintf(format: string, args: seq<string>): (r: string)
    requires OnlyStringVerbs(format)
    decreases |format|
  {
    if format == [] then Extra(args)
    else if format[0] == '%' then
      assert format[1] == 's';
      if args == [] then "%!s(MISSING)" + Sprintf(format[2..], [])
      else args[0] + Sprintf(format[2..], args[1..])
    else [format[0]] + Sprintf(format[1..], args)
  }

  function Extra(args: seq<string>): string
  {
    if args == [] then "" else "%!(EXTRA " + ExtraList(args) + ")"
  }

  function ExtraList(args: seq<string>): string
    requires args != []
  {
    "string=" + args[0] + if |args| == 1 then "" else ", " + ExtraList(args[1..])
  }

  /** Text before the first verb is copied unchanged. */
  lemma {:induction false} SprintfLiteralPrefix(pre: string, rest: string, args: seq<string>)
    requires '%' !in pre && OnlyStringVerbs(rest)
    ensures OnlyStringVerbs(pre + rest)
    ensures Sprintf(pre + rest, args) == pre + Sprintf(rest, args)
  {
    var f := pre + rest;
    assert forall i :: 0 <= i < |pre| ==> f[i] == pre[i];
    assert forall i :: |pre| <= i < |f| ==> f[i] == rest[i - |pre|];
    if pre == [] {
      assert f == rest;
    } else {
      assert f[0] == pre[0] && pre[0] != '%';
      assert f[1..] == pre[1..] + rest;
      SprintfLiteralPrefix(pre[1..], rest, args);
      assert Sprintf(f, args) == [pre[0]] + Sprintf(f[1..], args);
      assert [pre[0]] + (pre[1..] + Sprintf(rest, args)) == pre + Sprintf(rest, args);
    }
  }

  /**
   * Literal text formats to itself; arguments no verb takes are appended as `%!(EXTRA …)`, so with
   * no argument the result is the text alone.
   */
  lemma SprintfLiteral(s: string, args: seq<string>)
    requires '%' !in s
    ensures OnlyStringVerbs(s) && Sprintf(s, args) == s + Extra(args)
    ensures args == [] ==> Sprintf(s, args) == s
  {
    SprintfLiteralPrefix(s, "", args);
    assert s + "" == s;
  }

  /** A format that starts with `%s` takes the first argument, or prints `%!s(MISSING)` without one. */
  lemma SprintfVerbFirst(post: string, args: seq<string>)
    requires OnlyStringVerbs(post)
    ensures OnlyStringVerbs("%s" + post)
    ensures Sprintf("%s" + post, args)
         == if args == [] then "%!s(MISSING)" + Sprintf(post, []) else args[0] + Sprintf(post, args[1..])
  {
    var f := "%s" + post;
    assert f[0] == '%' && f[1] == 's' && f[2..] == post;
    assert forall i :: 2 <= i < |f| ==> f[i] == post[i - 2];
  }

  /** A format with one `%s` between literal text puts its single argument in place of the verb. */
  lemma SprintfOneVerb(pre: string, post: string, arg: string)
    requires '%' !in pre && '%' !in post
    ensures OnlyStringVerbs(pre + "%s" + post)
    ensures Sprintf(pre + "%s" + post, [arg]) == pre + arg + post
  {
    SprintfLiteral(post, []);
    SprintfVerbFirst(post, [arg]);
    assert [arg][1..] == [];
    SprintfLiteralPrefix(pre, "%s" + post, [arg]);
    assert pre + "%s" + post == pre + ("%s" + post);
    assert pre + (arg + post) == pre + arg + post;
  }

  /** The same format given no argument prints `%!s(MISSING)` in place of the verb. */
  lemma SprintfMissingVerb(pre: string, post: string)
    requires '%' !in pre && '%' !in post
    ensures OnlyStringVerbs(pre + "%s" + post)
    ensures Sprintf(pre + "%s" + post, []) == pre + "%!s(MISSING)" + post
  {
    SprintfLiteral(post, []);
    SprintfVerbFirst(post, []);
    SprintfLiteralPrefix(pre, "%s" + post, []);
    assert pre + "%s" + post == pre + ("%s" + post);
    assert pre + ("%!s(MISSING)" + post) == pre + "%!s(MISSING)" + post;
  }
}
