/**
 * What the server and the client share about requests: JavaScript truthiness of
 * request fields, the `value || default` idiom, and the `split(' ')` that
 * extracts the token from an `Authorization: Bearer <token>` header.
 */
module Http {
  import opened Wrappers

  /** `if (!s)` fails exactly for a missing field and for the empty string. */
  predicate Truthy(s: Option<string>) {
    s.Some? && s.value != ""
  }

  /** A numeric field is falsy when missing or zero. */
  predicate TruthyInt(n: Option<int>) {
    n.Some? && n.value != 0
  }

  /** `s || fallback` on a string field. */
  function OrElse(s: Option<string>, fallback: string): (r: string)
    ensures Truthy(s) ==> r == s.value
    ensures !Truthy(s) ==> r == fallback
  {
    if Truthy(s) then s.value else fallback
  }

  /** `n || fallback` on a numeric field. */
  function OrElseInt(n: Option<int>, fallback: int): (r: int)
    ensures TruthyInt(n) ==> r == n.value
    ensures !TruthyInt(n) ==> r == fallback
  {
    if TruthyInt(n) then n.value else fallback
  }

  predicate NoSpace(s: string) {
    ' ' !in s
  }

  /**
   * JavaScript's `s.split(' ')`: the maximal space-free pieces between single
   * spaces, empty pieces included; there are two or more exactly when `s` has a space.
   */
  function Split(s: string): (parts: seq<string>)
    ensures |parts| >= 1
    ensures forall i :: 0 <= i < |parts| ==> NoSpace(parts[i])
    ensures |parts| >= 2 <==> ' ' in s
    decreases |s|
  {
    if s == [] then [""]
    else
      assert s == [s[0]] + s[1..];
      var rest := Split(s[1..]);
      if s[0] == ' ' then [""] + rest
      else [[s[0]] + rest[0]] + rest[1..]
  }

  /** `parts.join(' ')`, the inverse of Split. */
  function Join(parts: seq<string>): string
    requires |parts| >= 1
  {
    if |parts| == 1 then parts[0] else parts[0] + " " + Join(parts[1..])
  }

  lemma {:induction false} JoinSplit(s: string)
    ensures Join(Split(s)) == s
    decreases |s|
  {
    if s != [] {
      assert s == [s[0]] + s[1..];
      JoinSplit(s[1..]);
      if s[0] == ' ' {
        JoinSplitSpace(s[1..]);
      } else {
        JoinSplitChar(s[0], s[1..]);
      }
    }
  }

  /** The inductive step of JoinSplit for a leading space. */
  lemma JoinSplitSpace(t: string)
    requires Join(Split(t)) == t
    ensures Join(Split([' '] + t)) == [' '] + t
  {
    SplitCons(' ', t);
    JoinCons("", Split(t));
  }

  /** The inductive step of JoinSplit for a leading non-space character. */
  lemma JoinSplitChar(c: char, t: string)
    requires c != ' ' && Join(Split(t)) == t
    ensures Join(Split([c] + t)) == [c] + t
  {
    SplitCons(c, t);
    JoinPrependToFirst(c, Split(t));
  }

  /** Prepending a character to the first piece prepends it to the joined string. */
  lemma JoinPrependToFirst(c: char, parts: seq<string>)
    requires |parts| >= 1
    ensures Join([[c] + parts[0]] + parts[1..]) == [c] + Join(parts)
  {
    var first, tail := parts[0], parts[1..];
    var head := [c] + first;
    assert parts == [first] + tail;
    if tail == [] {
      JoinCons(first, tail);
      JoinCons(head, tail);
    } else {
      var rest := Join(tail);
      assert Join(parts) == first + " " + rest by { JoinCons(first, tail); }
      assert Join([head] + tail) == head + " " + rest by { JoinCons(head, tail); }
      PrependAssoc(c, first, " ");
      PrependAssoc(c, first + " ", rest);
    }
  }

  lemma PrependAssoc(c: char, a: string, b: string)
    ensures [c] + a + b == [c] + (a + b)
  {
  }

  /** One unfolding of Split on a string with a known first character. */
  lemma SplitCons(c: char, s: string)
    ensures c == ' ' ==> Split([c] + s) == [""] + Split(s)
    ensures c != ' ' ==> Split([c] + s) == [[c] + Split(s)[0]] + Split(s)[1..]
  {
    assert ([c] + s)[1..] == s;
  }

  /** Join, seen from its first piece. */
  lemma JoinCons(x: string, rest: seq<string>)
    ensures rest == [] ==> Join([x] + rest) == x
    ensures rest != [] ==> Join([x] + rest) == x + " " + Join(rest)
  {
    assert ([x] + rest)[1..] == rest;
  }

  lemma {:induction false} SplitJoin(parts: seq<string>)
    requires |parts| >= 1
    requires forall i :: 0 <= i < |parts| ==> NoSpace(parts[i])
    ensures Split(Join(parts)) == parts
    decreases |parts|, |parts[0]|
  {
    var head, rest := parts[0], parts[1..];
    assert parts == [head] + rest;
    JoinCons(head, rest);
    if head == [] {
      if rest != [] {
        assert Join(parts) == [' '] + Join(rest);
        SplitJoin(rest);
        SplitCons(' ', Join(rest));
      }
    } else {
      var c, tail := head[0], head[1..];
      assert head == [c] + tail;
      assert c != ' ' by { assert c == parts[0][0]; }
      assert NoSpace(tail) by {
        assert forall k :: 0 <= k < |tail| ==> tail[k] == head[k + 1];
      }
      var shorter := [tail] + rest;
      assert shorter[1..] == rest;
      JoinCons(tail, rest);
      assert Join(parts) == [c] + Join(shorter);
      SplitJoin(shorter);
      SplitCons(c, Join(shorter));
    }
  }

  /** `authHeader.split(' ')[1]`: the second piece, or `undefined` when the header has no space. */
  function BearerToken(header: string): (token: Option<string>)
    ensures token.Some? <==> ' ' in header
    ensures token.Some? ==> NoSpace(token.value)
    ensures token.Some? ==> token.value == Split(header)[1]
  {
    var parts := Split(header);
    if |parts| >= 2 then Some(parts[1]) else None
  }

  /** The header a client builds from a space-free token yields that token back. */
  lemma BearerTokenOfBearerHeader(token: string)
    requires NoSpace(token)
    ensures BearerToken("Bearer " + token) == Some(token)
  {
    var parts := ["Bearer", token];
    assert Join(parts[1..]) == token;
    assert Join(parts) == "Bearer " + token;
    SplitJoin(parts);
  }
}
