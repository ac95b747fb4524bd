/**
 * The e-mail whitelist (src/lib/email-whitelist.ts). The build-time variable
 * `VITE_ALLOWED_EMAILS` is the parameter `env`: `None` when it is not set.
 * It holds a comma-separated list; each entry is compared after trimming and
 * lower-casing, and an empty list leaves sign-in open to everyone.
 */
module EmailWhitelist {
  import opened Strings
  import opened Wrappers

  /** `email.trim().toLowerCase()`: trimmed, lower-case, and empty exactly for a blank email. */
  function Normalize(email: string): (r: string)
    ensures IsTrimmed(r) && Lower(r) == r
    ensures r == [] <==> AllWhitespace(email)
  {
    LowerKeepsTrimmed(Trim(email));
    LowerIdempotent(Trim(email));
    TrimEmptyIff(email);
    Lower(Trim(email))
  }

  /** `.map(email => email.trim().toLowerCase()).filter(email => email.length > 0)`. */
  function Entries(pieces: seq<string>): (r: seq<string>)
    ensures |r| <= |pieces|
    ensures forall x <- r :: x != [] && IsTrimmed(x) && Lower(x) == x
  {
    if pieces == [] then []
    else
      var n := Normalize(pieces[0]);
      (if |n| > 0 then [n] else []) + Entries(pieces[1..])
  }

  /** The entries are the normalised forms of the non-blank pieces. */
  lemma {:induction false} EntriesMembers(pieces: seq<string>)
    ensures forall x :: x in Entries(pieces) <==> exists p :: p in pieces && !AllWhitespace(p) && Normalize(p) == x
  {
    if pieces != [] {
      EntriesMembers(pieces[1..]);
      assert pieces == [pieces[0]] + pieces[1..];
      forall x | x in Entries(pieces) ensures exists p :: p in pieces && !AllWhitespace(p) && Normalize(p) == x {
        if x !in Entries(pieces[1..]) {
          assert Normalize(pieces[0]) == x;
        } else {
          var p :| p in pieces[1..] && !AllWhitespace(p) && Normalize(p) == x;
          assert p in pieces;
        }
      }
      forall x | exists p :: p in pieces && !AllWhitespace(p) && Normalize(p) == x ensures x in Entries(pieces) {
        var p :| p in pieces && !AllWhitespace(p) && Normalize(p) == x;
        if p != pieces[0] {
          assert p in pieces[1..];
        }
      }
    }
  }

  /** `getAllowedEmails`. */
  function AllowedEmails(env: Option<string>): (r: seq<string>)
    ensures forall x <- r :: x != [] && IsTrimmed(x) && Lower(x) == x
  {
    if env.None? || env.value == [] || Trim(env.value) == [] then []
    else Entries(Split(env.value, ','))
  }

  /** `isWhitelistEnabled`. */
  predicate WhitelistEnabled(env: Option<string>)
  {
    |AllowedEmails(env)| > 0
  }

  /** `isEmailAllowed`. */
  predicate EmailAllowed(env: Option<string>, email: string)
  {
    if !WhitelistEnabled(env) then true
    else Normalize(email) in AllowedEmails(env)
  }

  /** Splitting a blank string gives only blank pieces, so the guard for a blank variable changes nothing. */
  lemma BlankPieces(s: string)
    requires AllWhitespace(s)
    ensures forall p <- Split(s, ',') :: AllWhitespace(p)
    ensures Entries(Split(s, ',')) == []
  {
    SplitPiecesFromSource(s, ',');
    forall p <- Split(s, ',') ensures AllWhitespace(p) {
      forall k | 0 <= k < |p| ensures IsWhitespace(p[k]) {
        assert p[k] in p;
        var i :| 0 <= i < |s| && s[i] == p[k];
      }
    }
    EntriesOfBlank(Split(s, ','));
  }

  /** Blank pieces give no entries. */
  lemma {:induction false} EntriesOfBlank(pieces: seq<string>)
    requires forall p <- pieces :: AllWhitespace(p)
    ensures Entries(pieces) == []
  {
    if pieces != [] {
      assert pieces[0] in pieces;
      EntriesOfBlank(pieces[1..]);
    }
  }

  /** An unset or blank variable gives an empty list; the whitelist is then off and every email is allowed. */
  lemma BlankEnvAllowsAll(env: Option<string>, email: string)
    requires env.None? || AllWhitespace(env.value)
    ensures AllowedEmails(env) == [] && !WhitelistEnabled(env) && EmailAllowed(env, email)
  {
    if env.Some? {
      TrimEmptyIff(env.value);
    }
  }

  /** The whitelist is on exactly when some comma-separated piece of the variable is not blank. */
  lemma EnabledIff(env: Option<string>)
    ensures WhitelistEnabled(env) <==> env.Some? && exists p :: p in Split(env.value, ',') && !AllWhitespace(p)
  {
    if env.Some? {
      TrimEmptyIff(env.value);
      if AllWhitespace(env.value) {
        BlankPieces(env.value);
      } else {
        SomeEntryIff(Split(env.value, ','));
      }
    }
  }

  /** The list of entries is non-empty exactly when some piece is not blank. */
  lemma SomeEntryIff(pieces: seq<string>)
    ensures |Entries(pieces)| > 0 <==> exists p :: p in pieces && !AllWhitespace(p)
  {
    EntriesMembers(pieces);
    var r := Entries(pieces);
    if r != [] {
      assert r[0] in r;
    }
    if exists p :: p in pieces && !AllWhitespace(p) {
      var p :| p in pieces && !AllWhitespace(p);
      assert Normalize(p) in r;
    }
  }

  /** With the whitelist on, an email is allowed exactly when it matches a non-blank piece once both are
      trimmed and lower-cased. */
  lemma AllowedIff(env: Option<string>, email: string)
    requires WhitelistEnabled(env)
    ensures EmailAllowed(env, email)
      <==> exists p :: p in Split(env.value, ',') && !AllWhitespace(p) && Normalize(p) == Normalize(email)
  {
    EntriesMembers(Split(env.value, ','));
  }

  /** Case and surrounding whitespace of the email make no difference. */
  lemma NormalizationIgnored(env: Option<string>, email: string)
    ensures EmailAllowed(env, Lower(email)) == EmailAllowed(env, email)
    ensures EmailAllowed(env, Normalize(email)) == EmailAllowed(env, email)
  {
    TrimLower(email);
    LowerIdempotent(Trim(email));
    TrimOfTrimmed(Normalize(email));
  }
}
