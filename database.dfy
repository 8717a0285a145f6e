/**
 * The connection-URL rewrite made when the database engine is created:
 * the synchronous `postgresql://` scheme becomes the asyncpg one, and every
 * `?sslmode=` parameter with a value is dropped, since asyncpg does not
 * accept it in the URL.
 */
module Database {
  import opened PyStr

  const SyncScheme := "postgresql://"
  const AsyncScheme := "postgresql+asyncpg://"
  const SslModeParam := "?sslmode="

  /** A character of the regular-expression class `\w`, over ASCII. */
  predicate IsWordChar(c: char) {
    ('a' <= c <= 'z') || ('A' <= c <= 'Z') || ('0' <= c <= '9') || c == '_'
  }

  /** The length of the longest run of word characters at the start of `s`. */
  function WordRun(s: string): (n: nat)
    ensures n <= |s|
    ensures forall i :: 0 <= i < n ==> IsWordChar(s[i])
    ensures n == |s| || !IsWordChar(s[n])
    decreases |s|
  {
    if s != [] && IsWordChar(s[0]) then 1 + WordRun(s[1..]) else 0
  }

  /** `\?sslmode=\w+` matches at the start of `s`; its match is then `|SslModeParam|` plus the greedy word run. */
  predicate SslModeAt(s: string) {
    SslModeParam <= s && |s| > |SslModeParam| && IsWordChar(s[|SslModeParam|])
  }

  /** `re.sub(r'\?sslmode=\w+', '', s)`: scanning left to right, each match is cut out and the scan resumes after it. */
  function StripSslMode(s: string): string
    decreases |s|
  {
    if s == [] then []
    else if SslModeAt(s) then StripSslMode(s[|SslModeParam| + WordRun(s[|SslModeParam|..])..])
    else [s[0]] + StripSslMode(s[1..])
  }

  /** The rewritten `DATABASE_URL`. */
  function DatabaseUrl(url: string): string {
    StripSslMode(Replace(url, SyncScheme, AsyncScheme))
  }

  /** Text holding no `?` passes through the `sslmode` removal untouched. */
  lemma {:induction false} StripSslModeNoQuestion(a: string, rest: string)
    requires '?' !in a
    ensures StripSslMode(a + rest) == a + StripSslMode(rest)
    decreases |a|
  {
    if a == [] {
      assert a + rest == rest;
    } else {
      assert (a + rest)[0] == a[0] != '?';
      assert !SslModeAt(a + rest);
      assert (a + rest)[1..] == a[1..] + rest;
      StripSslModeNoQuestion(a[1..], rest);
    }
  }

  /** A parameter with a value is removed together with the whole value, and only that. */
  lemma StripSslModeRemoves(value: string, rest: string)
    requires value != [] && forall i :: 0 <= i < |value| ==> IsWordChar(value[i])
    requires rest == [] || !IsWordChar(rest[0])
    ensures StripSslMode(SslModeParam + value + rest) == StripSslMode(rest)
  {
    var s := SslModeParam + value + rest;
    assert SslModeParam <= s;
    assert s[|SslModeParam|..] == value + rest;
    assert s[|SslModeParam|] == value[0];
    WordRunOf(value, rest);
    assert s[|SslModeParam| + |value|..] == rest;
  }

  lemma {:induction false} WordRunOf(value: string, rest: string)
    requires forall i :: 0 <= i < |value| ==> IsWordChar(value[i])
    requires rest == [] || !IsWordChar(rest[0])
    ensures WordRun(value + rest) == |value|
    decreases |value|
  {
    if value == [] {
      assert value + rest == rest;
    } else {
      assert (value + rest)[1..] == value[1..] + rest;
      WordRunOf(value[1..], rest);
    }
  }

  /** A bare `?sslmode=`, followed by no word character, is left in place. */
  lemma StripSslModeKeepsBare(rest: string)
    requires rest == [] || !IsWordChar(rest[0])
    ensures StripSslMode(SslModeParam + rest) == SslModeParam + StripSslMode(rest)
  {
    BareIsNoMatch(rest);
    ParamTail(rest);
    ConsParam(StripSslMode(rest));
  }

  lemma ConsParam(x: string)
    ensures ['?'] + ("sslmode=" + x) == SslModeParam + x
  {
  }

  lemma BareIsNoMatch(rest: string)
    requires rest == [] || !IsWordChar(rest[0])
    ensures StripSslMode(SslModeParam + rest) == ['?'] + StripSslMode("sslmode=" + rest)
  {
    BareIsNotAMatch(rest);
    StripSslModeUnmatched(SslModeParam + rest);
    ParamSplit(rest);
  }

  lemma BareIsNotAMatch(rest: string)
    requires rest == [] || !IsWordChar(rest[0])
    ensures !SslModeAt(SslModeParam + rest)
  {
    var s := SslModeParam + rest;
    if |s| > |SslModeParam| {
      assert s[|SslModeParam|] == rest[0];
    }
  }

  lemma StripSslModeUnmatched(s: string)
    requires s != [] && !SslModeAt(s)
    ensures StripSslMode(s) == [s[0]] + StripSslMode(s[1..])
  {
  }

  lemma ParamSplit(rest: string)
    ensures (SslModeParam + rest)[0] == '?'
    ensures (SslModeParam + rest)[1..] == "sslmode=" + rest
  {
  }

  lemma ParamTail(rest: string)
    ensures StripSslMode("sslmode=" + rest) == "sslmode=" + StripSslMode(rest)
  {
    assert '?' !in "sslmode=" by {
      assert forall i :: 0 <= i < |"sslmode="| ==> "sslmode="[i] != '?';
    }
    StripSslModeNoQuestion("sslmode=", rest);
  }

  /** Text without the `?sslmode=` parameter is returned unchanged by the removal. */
  lemma {:induction false} StripSslModeAbsent(s: string)
    requires forall i :: 0 <= i <= |s| ==> !OccursAt(s, SslModeParam, i)
    ensures StripSslMode(s) == s
    decreases |s|
  {
    if s != [] {
      assert !OccursAt(s, SslModeParam, 0);
      forall i | 0 <= i <= |s[1..]| ensures !OccursAt(s[1..], SslModeParam, i) {
        assert s[1..][i..] == s[i + 1..];
        assert !OccursAt(s, SslModeParam, i + 1);
      }
      StripSslModeAbsent(s[1..]);
    }
  }

  /** A URL holding neither the synchronous scheme nor the `sslmode` parameter is left as it is. */
  lemma DatabaseUrlNoop(url: string)
    requires forall i :: 0 <= i <= |url| ==> !OccursAt(url, SyncScheme, i)
    requires forall i :: 0 <= i <= |url| ==> !OccursAt(url, SslModeParam, i)
    ensures DatabaseUrl(url) == url
  {
    ReplaceAbsent(url, SyncScheme, AsyncScheme);
    StripSslModeAbsent(url);
  }

  /**
   * The hosted-database URL shape: `postgresql://<rest>?sslmode=<mode>`
   * becomes `postgresql+asyncpg://<rest>`, when `<rest>` has no `?` and
   * nothing after the scheme spells the scheme again.
   */
  lemma HostedUrl(rest: string, mode: string)
    requires '?' !in rest
    requires mode != [] && forall i :: 0 <= i < |mode| ==> IsWordChar(mode[i])
    requires forall i :: 0 <= i <= |rest + SslModeParam + mode| ==> !OccursAt(rest + SslModeParam + mode, SyncScheme, i)
    ensures DatabaseUrl(SyncScheme + rest + SslModeParam + mode) == AsyncScheme + rest
  {
    var tail := rest + SslModeParam + mode;
    assert SyncScheme + rest + SslModeParam + mode == SyncScheme + tail;
    ReplaceLeadingScheme(tail);
    AsyncHeadHasNoQuestion(rest);
    assert AsyncScheme + tail == (AsyncScheme + rest) + (SslModeParam + mode + []);
    StripSslModeNoQuestion(AsyncScheme + rest, SslModeParam + mode + []);
    StripSslModeRemoves(mode, []);
  }

  lemma ReplaceLeadingScheme(tail: string)
    requires forall i :: 0 <= i <= |tail| ==> !OccursAt(tail, SyncScheme, i)
    ensures Replace(SyncScheme + tail, SyncScheme, AsyncScheme) == AsyncScheme + tail
  {
    var url := SyncScheme + tail;
    assert SyncScheme <= url;
    assert url[|SyncScheme|..] == tail;
    ReplaceAbsent(tail, SyncScheme, AsyncScheme);
  }

  lemma AsyncHeadHasNoQuestion(rest: string)
    requires '?' !in rest
    ensures '?' !in AsyncScheme + rest
  {
    assert forall i :: 0 <= i < |AsyncScheme| ==> AsyncScheme[i] != '?';
  }
}
