/** Bearer-token authentication in front of every protected route: the
    Authorization header must start with "Bearer ", its second
    space-separated field is the token, and the identity provider must
    accept that token. */
module AuthMiddleware {
  import opened Base

  /** `s.split(sep)` on a one-character separator: the fields between
      separators, always at least one, none containing the separator. */
  function Split(s: string, sep: char): (r: seq<string>)
    ensures |r| >= 1
    ensures forall i :: 0 <= i < |r| ==> sep !in r[i]
    ensures |r| == 1 <==> sep !in s
    ensures r[0] <= s && (|r[0]| < |s| ==> s[|r[0]|] == sep)
    decreases |s|
  {
    if |s| == 0 then [""]
    else if s[0] == sep then [""] + Split(s[1..], sep)
    else
      var rest := Split(s[1..], sep);
      [[s[0]] + rest[0]] + rest[1..]
  }

  /** `parts.join(sep)`. */
  function Join(parts: seq<string>, sep: char): string
    requires |parts| >= 1
  {
    if |parts| == 1 then parts[0] else parts[0] + [sep] + Join(parts[1..], sep)
  }

  /** Gluing a character to the front of the first part glues it to the
      front of the joined string. */
  lemma {:induction false} JoinPrepend(parts: seq<string>, c: char, sep: char)
    requires |parts| >= 1
    ensures Join([[c] + parts[0]] + parts[1..], sep) == [c] + Join(parts, sep)
  {
    var q := [[c] + parts[0]] + parts[1..];
    if |parts| > 1 {
      assert q[1..] == parts[1..];
    }
  }

  /** Splitting and joining again gives back the string. */
  lemma {:induction false} JoinSplit(s: string, sep: char)
    ensures Join(Split(s, sep), sep) == s
    decreases |s|
  {
    if |s| > 0 {
      JoinSplit(s[1..], sep);
      var rest := Split(s[1..], sep);
      if s[0] == sep {
        var parts := [""] + rest;
        assert Split(s, sep) == parts;
        assert parts[1..] == rest;
        assert Join(parts, sep) == [sep] + Join(rest, sep);
      } else {
        assert Split(s, sep) == [[s[0]] + rest[0]] + rest[1..];
        JoinPrepend(rest, s[0], sep);
      }
      assert s == [s[0]] + s[1..];
    }
  }

  /** Splitting a string at its first separator: the text before it, then
      the fields of the text after it. */
  lemma {:induction false} SplitAtFirst(s: string, sep: char, k: nat)
    requires k < |s| && s[k] == sep && sep !in s[..k]
    ensures Split(s, sep) == [s[..k]] + Split(s[k+1..], sep)
    decreases k
  {
    if k == 0 {
      assert s[1..] == s[k+1..];
    } else {
      assert s[0] != sep by { assert s[0] == s[..k][0]; }
      assert s[1..][k-1] == sep;
      assert s[1..][..k-1] == s[1..k];
      assert sep !in s[1..k] by {
        forall i | 0 <= i < k - 1 ensures s[1..k][i] != sep { assert s[1..k][i] == s[..k][i+1]; }
      }
      SplitAtFirst(s[1..], sep, k - 1);
      assert s[1..][k..] == s[k+1..];
      assert [s[0]] + s[1..k] == s[..k];
    }
  }

  /** The Authorization header passes the prefix test. */
  predicate IsBearer(header: Option<string>) {
    header.Some? && "Bearer " <= header.value
  }

  /** `authHeader.split(' ')[1]`: the text after "Bearer " up to the next
      space or the end. */
  function Token(header: string): (token: string)
    requires "Bearer " <= header
    ensures token <= header[7..] && ' ' !in token
    ensures |token| < |header| - 7 ==> header[7 + |token|] == ' '
  {
    assert header[6] == ' ' && ' ' !in header[..6] by {
      assert header[..7] == "Bearer ";
      assert header[..6] == "Bearer";
    }
    SplitAtFirst(header, ' ', 6);
    Split(header, ' ')[1]
  }

  /** For a header "Bearer <t>" with no space in t, the token is t. */
  lemma {:induction false} TokenOfWellFormedHeader(t: string)
    requires ' ' !in t
    ensures "Bearer " <= "Bearer " + t && Token("Bearer " + t) == t
  {
    var h := "Bearer " + t;
    assert h[7..] == t;
    var token := Token(h);
    assert token <= t;
    assert |token| == |t|;
  }

  /** The authenticated user the identity provider hands back. */
  datatype AuthUser = AuthUser(email: Option<string>)

  /** What the middleware does: attach the user and hand the request on, or
      answer 401. */
  datatype AuthOutcome = Authenticated(user: AuthUser) | Denied(status: Status)

  /** authMiddleware. `getUser` is the identity provider: None stands for an
      error or no user for the token. */
  function Authenticate(header: Option<string>, getUser: string -> Option<AuthUser>): (r: AuthOutcome)
    ensures r.Authenticated? <==> IsBearer(header) && getUser(Token(header.value)).Some?
    ensures r.Authenticated? ==> r.user == getUser(Token(header.value)).value
    ensures r.Denied? ==> r.status == Unauthorized
  {
    if !IsBearer(header) then Denied(Unauthorized)
    else
      match getUser(Token(header.value))
      case None => Denied(Unauthorized)
      case Some(u) => Authenticated(u)
  }

  /** The token the provider is asked about is the one the client put after
      "Bearer ". */
  lemma {:induction false} WellFormedHeaderAsksForItsToken(t: string, getUser: string -> Option<AuthUser>)
    requires ' ' !in t
    ensures Authenticate(Some("Bearer " + t), getUser).Authenticated? <==> getUser(t).Some?
  {
    TokenOfWellFormedHeader(t);
  }
}
