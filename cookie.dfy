/** Signed cookies: a stored value is prefixed with a salted SHA-1 of itself
    and a '+', and is read back only when that prefix still matches. */
module Cookies {
  import opened Php

  predicate LowerHex(c: char) {
    '0' <= c <= '9' || 'a' <= c <= 'f'
  }

  /** What PHP's `sha1()` returns: 40 lower-case hexadecimal digits. */
  type Sha1Hex = s: string | |s| == 40 && forall i :: 0 <= i < |s| ==> LowerHex(s[i])
    witness "0000000000000000000000000000000000000000"

  /** The secret the cookies are signed with: the configured salt, and SHA-1
      itself, which is not modelled beyond the shape of its output. */
  datatype Signer = Signer(salt: string, sha1: string -> Sha1Hex) {

    /** `hash($value)`: SHA-1 over the value followed by the salt. */
    function Hash(value: string): (h: string)
      ensures |h| == 40 && '+' !in h && !EmptyString(h)
    {
      var d: Sha1Hex := sha1(value + salt);
      assert !LowerHex('+') && d[0] in d;
      d
    }

    /** What `set` stores: the hash, a '+', then the value. */
    function Signed(value: string): (c: string)
      ensures |c| == 41 + |value|
      ensures c[..40] == Hash(value) && c[40] == '+' && c[41..] == value
    {
      Hash(value) + "+" + value
    }

    /** `parse($string)`: split at '+', take the first piece as the hash and
        the last as the value; both must be non-empty and the hash must be
        the value's. A value read back holds no '+', is neither '' nor '0',
        and the string begins with its hash and ends with it. */
    function Parse(s: string): (r: Option<string>)
      ensures r.Some? ==> !EmptyString(r.value) && '+' !in r.value
      ensures r.Some? ==> Hash(r.value) <= s && EndsWith(s, r.value)
      ensures r.Some? ==> Hash(r.value) + "+" <= s || s == Hash(r.value)
    {
      var parts := Explode('+', s);
      var hash := parts[0];
      var value := parts[|parts| - 1];
      ExplodeEnds('+', s);
      ExplodeHead('+', s);
      if EmptyString(hash) || EmptyString(value) then None
      else if hash != Hash(value) then None
      else Some(value)
    }

    /** Exploding a signed value without '+' gives the hash and the value. */
    lemma SignedParts(value: string)
      requires '+' !in value
      ensures Explode('+', Signed(value)) == [Hash(value), value]
    {
      assert Signed(value) == Hash(value) + ['+'] + value;
      ExplodeAtSeparator('+', Hash(value), value);
      ExplodeWithoutSeparator('+', value);
    }

    /** A value that is neither '' nor '0' and holds no '+' reads back as
        itself. */
    lemma ParseSigned(value: string)
      requires !EmptyString(value) && '+' !in value
      ensures Parse(Signed(value)) == Some(value)
    {
      SignedParts(value);
    }

    /** The values '' and '0' never read back. */
    lemma ParseEmpty(value: string)
      requires EmptyString(value)
      ensures Parse(Signed(value)) == None
    {
      SignedParts(value);
    }

    /** A value holding a '+' never reads back as itself: only the text after
        its last '+' can come back. */
    lemma ParsePlus(value: string)
      requires '+' in value
      ensures Parse(Signed(value)) != Some(value)
    {
    }

    /** A cookie whose first piece is not the hash of its last piece is
        refused, however many '+' it holds. */
    lemma ParseForged(hash: string, rest: string)
      requires '+' !in hash
      requires hash != Hash(Explode('+', rest)[|Explode('+', rest)| - 1])
      ensures Parse(hash + "+" + rest) == None
    {
      assert hash + "+" + rest == hash + ['+'] + rest;
      ExplodeAtSeparator('+', hash, rest);
    }

    /** A cookie without '+' reads back only when it is its own hash. */
    lemma ParseWithoutPlus(s: string)
      requires '+' !in s
      ensures Parse(s) == if !EmptyString(s) && s == Hash(s) then Some(s) else None
    {
      ExplodeWithoutSeparator('+', s);
    }
  }

  // ---------------------------------------------------------------------------
  // Reading the cookie map

  /** What `get` returns: the whole map for a null key, or one entry. */
  datatype Read = All(jar: map<string, string>) | Entry(value: Option<string>)

  /** `get($key, $default)` over the cookies `jar`: a missing or empty entry
      gives the default, any other is parsed. */
  function Get(signer: Signer, jar: map<string, string>, key: Option<string>, default: Option<string>): (r: Read)
    ensures key.None? <==> r == All(jar)
    ensures key.Some? && (key.value !in jar || EmptyString(jar[key.value])) ==> r == Entry(default)
    ensures key.Some? && key.value in jar && !EmptyString(jar[key.value]) ==>
      r == Entry(signer.Parse(jar[key.value]))
  {
    if key.None? then All(jar)
    else
      var value := if key.value in jar then jar[key.value] else "";
      if EmptyString(value) then Entry(default) else Entry(signer.Parse(value))
  }

  /** `exists($key)`: `get($key)` is not null. */
  function Exists(signer: Signer, jar: map<string, string>, key: string): (b: bool)
    ensures b <==> key in jar && !EmptyString(jar[key]) && signer.Parse(jar[key]).Some?
  {
    Get(signer, jar, Some(key), None) != Entry(None)
  }

  /** After `set(key, value)` with a value that is neither '' nor '0' and
      holds no '+', `get(key)` returns the value and `exists(key)` holds. */
  lemma SetThenGet(signer: Signer, jar: map<string, string>, key: string, value: string, default: Option<string>)
    requires !EmptyString(value) && '+' !in value
    ensures Get(signer, jar[key := signer.Signed(value)], Some(key), default) == Entry(Some(value))
    ensures Exists(signer, jar[key := signer.Signed(value)], key)
  {
    signer.ParseSigned(value);
  }

  /** After `set(key, '')` or `set(key, '0')`, `get(key)` is null whatever the
      default. */
  lemma SetEmptyThenGet(signer: Signer, jar: map<string, string>, key: string, value: string, default: Option<string>)
    requires EmptyString(value)
    ensures Get(signer, jar[key := signer.Signed(value)], Some(key), default) == Entry(None)
    ensures !Exists(signer, jar[key := signer.Signed(value)], key)
  {
    signer.ParseEmpty(value);
  }

  /** Setting one key does not change what any other key reads. */
  lemma SetKeepsOthers(signer: Signer, jar: map<string, string>, key: string, c: string, other: string, default: Option<string>)
    requires other != key
    ensures Get(signer, jar[key := c], Some(other), default) == Get(signer, jar, Some(other), default)
  {
  }

  /** After `remove(key)` the key reads as its default and no longer exists;
      every other key reads as before. */
  lemma RemoveThenGet(signer: Signer, jar: map<string, string>, key: string, other: string, default: Option<string>)
    ensures Get(signer, jar - {key}, Some(key), default) == Entry(default)
    ensures !Exists(signer, jar - {key}, key)
    ensures other != key ==> Get(signer, jar - {key}, Some(other), default) == Get(signer, jar, Some(other), default)
  {
  }

  // ---------------------------------------------------------------------------
  // Writing cookies

  /** One `setcookie()` call; `Bool(false)` as the value deletes the cookie. */
  datatype Header = SetCookie(name: string, value: Value, expires: int, path: string, domain: Option<string>, secure: bool)

  /** `forever` keeps a cookie for 2628000 minutes. */
  const ForeverMinutes: int := 2628000

  /** The expiry `set` hands to `setcookie`: a positive number of minutes from
      `now`, otherwise the given value as it is (0 is a session cookie). */
  function Expiry(expires: int, now: int): (e: int)
    ensures expires > 0 ==> e == now + expires * 60 && e >= now + 60
    ensures expires <= 0 ==> e == expires
  {
    if expires > 0 then now + expires * 60 else expires
  }

  /** `forever` means five years of 365 days. */
  lemma ForeverIsFiveYears(now: int)
    ensures Expiry(ForeverMinutes, now) == now + 5 * 365 * 24 * 60 * 60
  {
  }

  /** The cookie store of one request: `$_COOKIE` as it stands and the
      `setcookie()` calls made so far. `time()` and the result of
      `setcookie()` are parameters of the methods that use them. */
  class Cookie {
    const signer: Signer
    var cookies: map<string, string>
    var sent: seq<Header>

    constructor (signer: Signer, cookies: map<string, string>)
      ensures this.signer == signer && this.cookies == cookies && sent == []
    {
      this.signer := signer;
      this.cookies := cookies;
      sent := [];
    }

    /** `set($key, $value, $expires, $path, $domain, $secure)`. */
    method Set(key: string, value: string, expires: int, path: string, domain: Option<string>, secure: bool,
               now: int, delivered: bool) returns (ok: bool)
      modifies this
      ensures cookies == old(cookies)[key := signer.Signed(value)]
      ensures sent == old(sent) + [SetCookie(key, Str(signer.Signed(value)), Expiry(expires, now), path, domain, secure)]
      ensures ok == delivered
    {
      var e := expires;
      if e > 0 {
        e := now + e * 60;
      }
      var v := signer.Hash(value) + "+" + value;
      cookies := cookies[key := v];
      sent := sent + [SetCookie(key, Str(v), e, path, domain, secure)];
      ok := delivered;
    }

    /** `forever($key, $value, $path, $domain, $secure)`. */
    method Forever(key: string, value: string, path: string, domain: Option<string>, secure: bool,
                   now: int, delivered: bool) returns (ok: bool)
      modifies this
      ensures cookies == old(cookies)[key := signer.Signed(value)]
      ensures sent == old(sent) + [SetCookie(key, Str(signer.Signed(value)), now + 157680000, path, domain, secure)]
      ensures ok == delivered
    {
      ok := Set(key, value, ForeverMinutes, path, domain, secure, now, delivered);
    }

    /** `remove($key, $path, $domain, $secure)`: the entry goes, and the
        browser is told to drop the cookie with an expiry in the past. */
    method Remove(key: string, path: string, domain: Option<string>, secure: bool, delivered: bool) returns (ok: bool)
      modifies this
      ensures cookies == old(cookies) - {key}
      ensures sent == old(sent) + [SetCookie(key, Bool(false), -3600, path, domain, secure)]
      ensures ok == delivered
    {
      cookies := cookies - {key};
      sent := sent + [SetCookie(key, Bool(false), -3600, path, domain, secure)];
      ok := delivered;
    }
  }
}
