/**
 * Extraction of the credential from the `Authorization` header, as the
 * expression `authHeader && authHeader.split(' ')[1]` computes it.
 */
module AuthHeader {
  import opened Wrappers

  const Space: char := ' '

  /**
   * `s.split(' ')`: the pieces of `s` between single spaces. Two adjacent
   * spaces give an empty piece; there is always at least one piece.
   */
  function Split(s: string): (parts: seq<string>)
    ensures |parts| >= 1
    ensures forall k :: 0 <= k < |parts| ==> Space !in parts[k]
  {
    if s == [] then [[]]
    else
      var rest := Split(s[1..]);
      if s[0] == Space then [[]] + rest
      else [[s[0]] + rest[0]] + rest[1..]
  }

  /** `parts.join(' ')`, the inverse of Split. */
  function Join(parts: seq<string>): string
    requires |parts| >= 1
  {
    if |parts| == 1 then parts[0] else parts[0] + [Space] + Join(parts[1..])
  }

  /** Splitting loses nothing: joining the pieces back gives the header. */
  lemma {:induction false} JoinSplit(s: string)
    ensures Join(Split(s)) == s
  {
    if s != [] {
      var rest := Split(s[1..]);
      JoinSplit(s[1..]);
      if s[0] != Space && |rest| > 1 {
        assert Join(rest) == rest[0] + [Space] + Join(rest[1..]);
      }
    }
  }

  /** A space-free prefix is glued onto the first piece of what follows it. */
  lemma {:induction false} SplitPrefix(w: string, s: string)
    requires Space !in w
    ensures Split(w + s) == [w + Split(s)[0]] + Split(s)[1..]
  {
    if w != [] {
      assert (w + s)[1..] == w[1..] + s;
      SplitPrefix(w[1..], s);
      assert [w[0]] + (w[1..] + Split(s)[0]) == w + Split(s)[0];
    } else {
      assert w + s == s;
      assert w + Split(s)[0] == Split(s)[0];
      assert Split(s) == [Split(s)[0]] + Split(s)[1..];
    }
  }

  /** Pieces free of spaces come back unchanged from a join and a split. */
  lemma {:induction false} SplitJoin(parts: seq<string>)
    requires |parts| >= 1
    requires forall k :: 0 <= k < |parts| ==> Space !in parts[k]
    ensures Split(Join(parts)) == parts
  {
    if |parts| == 1 {
      SplitPrefix(parts[0], []);
      assert parts[0] + [] == parts[0];
    } else {
      var tail := Join(parts[1..]);
      SplitJoin(parts[1..]);
      assert ([Space] + tail)[1..] == tail;
      assert Split([Space] + tail) == [[]] + parts[1..];
      assert Join(parts) == parts[0] + ([Space] + tail);
      SplitPrefix(parts[0], [Space] + tail);
      assert parts[0] + [] == parts[0];
    }
  }

  /** A string splits into a single piece exactly when it has no space. */
  lemma {:induction false} SinglePiece(s: string)
    ensures |Split(s)| == 1 <==> Space !in s
  {
    if s != [] {
      SinglePiece(s[1..]);
      assert s == [s[0]] + s[1..];
    }
  }

  /**
   * The token of an optional header: None when the header is absent or has
   * no second piece. An empty header is falsy in JavaScript, so `&&` yields
   * the empty string itself rather than a split.
   */
  function ExtractToken(authorization: Option<string>): Option<string>
  {
    match authorization
    case None => None
    case Some(h) =>
      if h == [] then Some([])
      else
        var parts := Split(h);
        if |parts| >= 2 then Some(parts[1]) else None
  }

  /**
   * No token is found exactly when the header is absent, or present,
   * non-empty and without any space.
   */
  lemma NoTokenIff(authorization: Option<string>)
    ensures ExtractToken(authorization).None?
        <==> authorization.None? || (authorization.value != [] && Space !in authorization.value)
  {
    if authorization.Some? && authorization.value != [] {
      SinglePiece(authorization.value);
    }
  }

  /**
   * A header `<scheme> <token>` with space-free scheme and token yields the
   * token, whatever follows it after a further space; the scheme word itself
   * is never examined.
   */
  lemma {:induction false} SchemeTokenRest(scheme: string, token: string, rest: string)
    requires Space !in scheme && Space !in token
    requires rest == [] || rest[0] == Space
    ensures ExtractToken(Some(scheme + [Space] + token + rest)) == Some(token)
  {
    var h := scheme + [Space] + token + rest;
    assert h == scheme + ([Space] + (token + rest));
    SplitPrefix(scheme, [Space] + (token + rest));
    assert ([Space] + (token + rest))[1..] == token + rest;
    SplitPrefix(token, rest);
    if rest == [] {
      assert token + [] == token;
    } else {
      assert Split(rest)[0] == [];
      assert token + [] == token;
    }
  }
}
