/** The Cloudflare R2 upload service: which configuration enables it, the
    object key and public link of an uploaded clip, and the sequence of
    progress reports and errors of one upload. */
module R2 {
  import opened Types

  /** The environment variables read once when the module loads; `None`
      stands for an unset variable. */
  datatype Env = Env(
    accountId: Option<string>,
    accessKeyId: Option<string>,
    secretAccessKey: Option<string>,
    bucketName: Option<string>,
    publicDomain: Option<string>)

  /** The module-level client is created exactly when the account id and
      both credentials are set; the bucket plays no part. */
  predicate HasClient(env: Env)
    ensures HasClient(env) <==>
      && env.accountId.Some? && |env.accountId.value| > 0
      && env.accessKeyId.Some? && |env.accessKeyId.value| > 0
      && env.secretAccessKey.Some? && |env.secretAccessKey.value| > 0
  {
    Truthy(env.accountId) && Truthy(env.accessKeyId) && Truthy(env.secretAccessKey)
  }

  /** `isR2Configured()`: the three client settings and the bucket are set. */
  predicate IsR2Configured(env: Env)
    ensures IsR2Configured(env) <==>
      forall v :: v in [env.accountId, env.accessKeyId, env.secretAccessKey, env.bucketName] ==> v.Some? && v.value != ""
  {
    HasClient(env) && Truthy(env.bucketName)
  }

  /** A configured service always has a client, but a client can exist
      without a bucket, so the two checks disagree on such an environment. */
  lemma ConfiguredHasClient(env: Env)
    ensures IsR2Configured(env) ==> HasClient(env)
    ensures HasClient(env) && !Truthy(env.bucketName) ==> !IsR2Configured(env)
  {
  }

  /** How a template literal prints an optional value. */
  function Render(v: Option<string>): string {
    if v.Some? then v.value else "undefined"
  }

  function DigitChar(d: nat): (c: char)
    requires d < 10
    ensures '0' <= c <= '9' && c as int - '0' as int == d
  {
    ('0' as int + d) as char
  }

  predicate IsDigits(s: string) {
    forall k :: 0 <= k < |s| ==> '0' <= s[k] <= '9'
  }

  /** The decimal form of a millisecond timestamp, as `${n}` prints it. */
  function Decimal(n: nat): (r: string)
    ensures r != [] && IsDigits(r)
    ensures r[0] == '0' <==> n == 0
    ensures |r| > 1 ==> r[0] != '0'
  {
    if n < 10 then [DigitChar(n)] else Decimal(n / 10) + [DigitChar(n % 10)]
  }

  /** The number a string of decimal digits spells. */
  function DecimalValue(s: string): nat
    requires IsDigits(s)
  {
    if s == [] then 0 else 10 * DecimalValue(s[..|s| - 1]) + (s[|s| - 1] as int - '0' as int)
  }

  /** Reading the printed timestamp back gives the timestamp. */
  lemma {:induction false} DecimalRoundTrip(n: nat)
    ensures DecimalValue(Decimal(n)) == n
  {
    if n >= 10 {
      DecimalRoundTrip(n / 10);
      var s := Decimal(n);
      assert s[..|s| - 1] == Decimal(n / 10);
    }
  }

  /** The object key `orders/<orderId>_<timestamp>.webm`. */
  function ObjectKey(orderId: string, now: nat): (key: string)
    ensures |key| > 7 + 5
    ensures key[..7] == "orders/" && key[|key| - 5..] == ".webm"
  {
    "orders/" + orderId + "_" + Decimal(now) + ".webm"
  }

  /** Two uploads of one order at different times get different keys. */
  lemma DistinctTimesDistinctKeys(orderId: string, now1: nat, now2: nat)
    requires now1 != now2
    ensures ObjectKey(orderId, now1) != ObjectKey(orderId, now2)
  {
    if ObjectKey(orderId, now1) == ObjectKey(orderId, now2) {
      var k := ObjectKey(orderId, now1);
      var d1, d2 := Decimal(now1), Decimal(now2);
      assert |d1| == |d2|;
      assert d1 == k[7 + |orderId| + 1..|k| - 5];
      assert d2 == k[7 + |orderId| + 1..|k| - 5];
      DecimalRoundTrip(now1);
      DecimalRoundTrip(now2);
      assert false;
    }
  }

  /** Index of the last occurrence of `c` in `s`, if any. */
  function LastIndexOf(s: string, c: char): (r: Option<nat>)
    ensures r.None? ==> forall k :: 0 <= k < |s| ==> s[k] != c
    ensures r.Some? ==> r.value < |s| && s[r.value] == c
    ensures r.Some? ==> forall k :: r.value < k < |s| ==> s[k] != c
  {
    if s == [] then None
    else if s[|s| - 1] == c then Some(|s| - 1)
    else LastIndexOf(s[..|s| - 1], c)
  }

  /** Reads the order id back out of an object key: what lies between the
      `orders/` prefix and the last underscore. */
  function OrderIdOfKey(key: string): Option<string> {
    if |key| < 7 || key[..7] != "orders/" then None
    else match LastIndexOf(key, '_')
      case None => None
      case Some(u) => if u < 7 then None else Some(key[7..u])
  }

  /** The key names the order it was built from, whatever characters the
      order id holds (an underscore inside it included). */
  lemma {:induction false} ObjectKeyRoundTrip(orderId: string, now: nat)
    ensures OrderIdOfKey(ObjectKey(orderId, now)) == Some(orderId)
  {
    var key := ObjectKey(orderId, now);
    var digits := Decimal(now);
    var u := 7 + |orderId|;
    assert key[..7] == "orders/";
    assert key[u] == '_';
    forall k | u < k < |key| ensures key[k] != '_' {
      if k <= u + |digits| {
        assert key[k] == digits[k - u - 1];
      } else {
        assert key[k] == ".webm"[k - u - 1 - |digits|];
      }
    }
    assert LastIndexOf(key, '_') == Some(u);
    assert key[7..u] == orderId;
  }

  /** Drops the leading run of slashes: the `\/+` part of the rewrite. */
  function DropSlashes(s: string): (r: string)
    ensures |r| <= |s| && r == s[|s| - |r|..]
    ensures r != [] ==> r[0] != '/'
    ensures forall k :: 0 <= k < |s| - |r| ==> s[k] == '/'
  {
    if s != [] && s[0] == '/' then DropSlashes(s[1..]) else s
  }

  /** `s.replace(/([^:]\/)\/+/g, "$1")`: scanning left to right, wherever a
      character other than `:` is followed by two or more slashes, the run
      of slashes shrinks to one; scanning resumes after the run. */
  function CollapseSlashes(s: string): (r: string)
    ensures |r| <= |s|
    ensures s != [] ==> r != [] && r[0] == s[0]
    decreases |s|
  {
    if |s| >= 3 && s[0] != ':' && s[1] == '/' && s[2] == '/' then
      [s[0], '/'] + CollapseSlashes(DropSlashes(s[2..]))
    else if s == [] then []
    else [s[0]] + CollapseSlashes(s[1..])
  }

  /** At `i` the pattern `[^:]\/\/` starts: a non-colon and two slashes. */
  predicate RunAt(s: string, i: int) {
    0 <= i && i + 2 < |s| && s[i] != ':' && s[i + 1] == '/' && s[i + 2] == '/'
  }

  /** Nothing left for the rewrite to match. */
  ghost predicate NoRun(s: string) {
    forall i :: !RunAt(s, i)
  }

  /** The characters other than slashes, in order. */
  function Unslashed(s: string): string {
    if s == [] then [] else (if s[0] == '/' then [] else [s[0]]) + Unslashed(s[1..])
  }

  lemma {:induction false} UnslashedAppend(a: string, b: string)
    ensures Unslashed(a + b) == Unslashed(a) + Unslashed(b)
  {
    if a != [] {
      assert (a + b)[0] == a[0];
      assert (a + b)[1..] == a[1..] + b;
      UnslashedAppend(a[1..], b);
    } else {
      assert a + b == b;
    }
  }

  lemma {:induction false} UnslashedDropSlashes(s: string)
    ensures Unslashed(DropSlashes(s)) == Unslashed(s)
  {
    if s != [] && s[0] == '/' {
      UnslashedDropSlashes(s[1..]);
    }
  }

  /** After the rewrite no `[^:]//` remains: a double slash survives only
      right after a colon (as in `https://`) or at the very start. */
  lemma {:induction false} CollapseLeavesNoRun(s: string)
    ensures NoRun(CollapseSlashes(s))
    decreases |s|
  {
    if RunAt(s, 0) {
      var u := DropSlashes(s[2..]);
      CollapseLeavesNoRun(u);
      RunStep(s);
      NoRunPair(s[0], CollapseSlashes(u));
    } else if s != [] {
      CollapseLeavesNoRun(s[1..]);
      CollapseStep(s);
      HeadNoRun(s);
      NoRunPrefix(s[0], CollapseSlashes(s[1..]));
    }
  }

  /** A character in front of a string with no match adds none, unless
      the pattern starts at it. */
  lemma NoRunPrefix(c: char, rest: string)
    requires NoRun(rest) && !RunAt([c] + rest, 0)
    ensures NoRun([c] + rest)
  {
    forall i ensures !RunAt([c] + rest, i) {
      if i >= 1 {
        assert RunAt([c] + rest, i) ==> RunAt(rest, i - 1);
      }
    }
  }

  /** The kept character and slash in front of the rest of a collapsed
      run add no match. */
  lemma NoRunPair(c: char, rest: string)
    requires NoRun(rest) && (rest == [] || rest[0] != '/')
    ensures NoRun([c, '/'] + rest)
  {
    forall i ensures !RunAt([c, '/'] + rest, i) {
      if i >= 2 {
        assert RunAt([c, '/'] + rest, i) ==> RunAt(rest, i - 2);
      }
    }
  }

  /** Where the pattern does not start, copying the character starts no
      match either. */
  lemma HeadNoRun(s: string)
    requires s != [] && !RunAt(s, 0)
    ensures !RunAt([s[0]] + CollapseSlashes(s[1..]), 0)
  {
    if |s| >= 3 && s[0] != ':' && s[1] == '/' {
      assert !RunAt(s[1..], 0);
      CollapseStep(s[1..]);
      assert s[1..][1..] == s[2..];
    }
  }

  /** The rewrite deletes slashes only: every other character survives,
      in order. */
  lemma {:induction false} CollapseKeepsOtherChars(s: string)
    ensures Unslashed(CollapseSlashes(s)) == Unslashed(s)
    decreases |s|
  {
    if |s| >= 3 && s[0] != ':' && s[1] == '/' && s[2] == '/' {
      var u := DropSlashes(s[2..]);
      CollapseKeepsOtherChars(u);
      UnslashedAppend([s[0], '/'], CollapseSlashes(u));
      UnslashedDropSlashes(s[2..]);
      assert s[1..][1..] == s[2..];
    } else if s != [] {
      CollapseKeepsOtherChars(s[1..]);
      UnslashedAppend([s[0]], CollapseSlashes(s[1..]));
    }
  }

  /** A string with nothing to match is left as it is. */
  lemma {:induction false} CollapseIdentity(s: string)
    requires NoRun(s)
    ensures CollapseSlashes(s) == s
    decreases |s|
  {
    if s != [] {
      assert !RunAt(s, 0);
      forall i ensures !RunAt(s[1..], i) {
        assert RunAt(s[1..], i) ==> RunAt(s, i + 1);
      }
      CollapseIdentity(s[1..]);
    }
  }

  /** Applying the rewrite twice gives what applying it once gives. */
  lemma CollapseIdempotent(s: string)
    ensures CollapseSlashes(CollapseSlashes(s)) == CollapseSlashes(s)
  {
    CollapseLeavesNoRun(s);
    CollapseIdentity(CollapseSlashes(s));
  }

  /** One step of the scan where the pattern does not start. */
  lemma CollapseStep(s: string)
    requires s != [] && !RunAt(s, 0)
    ensures CollapseSlashes(s) == [s[0]] + CollapseSlashes(s[1..])
  {
  }

  /** A run of `k` slashes. */
  function Slashes(k: nat): (r: string)
    ensures |r| == k && forall i :: 0 <= i < k ==> r[i] == '/'
  {
    seq(k, _ => '/')
  }

  predicate NoSlash(s: string) {
    forall i :: 0 <= i < |s| ==> s[i] != '/'
  }

  predicate EndsUnslashed(p: string) {
    p != [] && p[|p| - 1] != '/'
  }

  /** Where the rewrite of `p + t` falls apart into the rewrites of `p` and
      of `t`: `p` ends in a character other than a slash and, unless that
      character is a colon, `t` does not start with two slashes. */
  predicate SplitPoint(p: string, t: string) {
    EndsUnslashed(p) && (p[|p| - 1] == ':' || !(|t| >= 2 && t[0] == '/' && t[1] == '/'))
  }

  /** A run of slashes that ends inside `a` ends there whatever follows. */
  lemma {:induction false} DropSlashesAppend(a: string, t: string)
    requires EndsUnslashed(a)
    ensures DropSlashes(a + t) == DropSlashes(a) + t
    decreases |a|
  {
    if a[0] == '/' {
      assert (a + t)[1..] == a[1..] + t;
      DropSlashesAppend(a[1..], t);
    }
  }

  lemma DropSlashesKeepsEnd(a: string)
    requires EndsUnslashed(a)
    ensures EndsUnslashed(DropSlashes(a)) && DropSlashes(a)[|DropSlashes(a)| - 1] == a[|a| - 1]
  {
    var r := DropSlashes(a);
    assert r == a[|a| - |r|..];
  }

  lemma {:induction false} DropSlashesRun(k: nat, t: string)
    requires t == [] || t[0] != '/'
    ensures DropSlashes(Slashes(k) + t) == t
  {
    if k > 0 {
      assert (Slashes(k) + t)[1..] == Slashes(k - 1) + t;
      DropSlashesRun(k - 1, t);
    } else {
      assert Slashes(k) + t == t;
    }
  }

  /** One step of the scan where the pattern starts. */
  lemma RunStep(s: string)
    requires RunAt(s, 0)
    ensures CollapseSlashes(s) == [s[0], '/'] + CollapseSlashes(DropSlashes(s[2..]))
  {
  }

  lemma SplitSingle(c: char, t: string)
    requires SplitPoint([c], t)
    ensures CollapseSlashes([c] + t) == [c] + CollapseSlashes(t)
  {
    var s := [c] + t;
    assert !RunAt(s, 0) by {
      if |s| >= 3 {
        assert s[1] == t[0] && s[2] == t[1];
      }
    }
    CollapseStep(s);
    assert s[1..] == t;
  }

  lemma RunAppend(p: string, t: string)
    requires SplitPoint(p, t) && RunAt(p + t, 0) && |p| >= 3
    ensures CollapseSlashes(p + t) == [p[0], '/'] + CollapseSlashes(DropSlashes(p[2..]) + t)
  {
    assert (p + t)[2..] == p[2..] + t;
    DropSlashesAppend(p[2..], t);
    DropSlashesKeepsEnd(p[2..]);
  }

  /** The split when the pattern starts at the front: the run ends inside
      `p`, and what follows it is split again. */
  lemma SplitAtRun(p: string, t: string)
    requires SplitPoint(p, t) && RunAt(p + t, 0)
    requires |p| >= 3
    requires CollapseSlashes(DropSlashes(p[2..]) + t) == CollapseSlashes(DropSlashes(p[2..])) + CollapseSlashes(t)
    ensures CollapseSlashes(p + t) == CollapseSlashes(p) + CollapseSlashes(t)
  {
    RunAppend(p, t);
    assert RunAt(p, 0);
    RunStep(p);
    Assoc([p[0], '/'], CollapseSlashes(DropSlashes(p[2..])), CollapseSlashes(t));
  }

  /** Concatenation regroups; kept apart so that proofs about the rewrite
      need not reason about sequence equality. */
  lemma Assoc(a: string, b: string, c: string)
    ensures a + (b + c) == (a + b) + c
  {
  }

  lemma StepAppend(p: string, t: string)
    requires p != [] && !RunAt(p + t, 0)
    ensures CollapseSlashes(p + t) == [p[0]] + CollapseSlashes(p[1..] + t)
  {
    assert (p + t)[1..] == p[1..] + t;
  }

  /** The split when the pattern does not start at the front. */
  lemma SplitAtChar(p: string, t: string)
    requires SplitPoint(p, t) && !RunAt(p + t, 0)
    requires |p| >= 2
    requires CollapseSlashes(p[1..] + t) == CollapseSlashes(p[1..]) + CollapseSlashes(t)
    ensures CollapseSlashes(p + t) == CollapseSlashes(p) + CollapseSlashes(t)
  {
    StepAppend(p, t);
    CollapseStep(p);
    Assoc([p[0]], CollapseSlashes(p[1..]), CollapseSlashes(t));
  }

  lemma SplitOne(p: string, t: string)
    requires |p| == 1 && SplitPoint(p, t)
    ensures CollapseSlashes(p + t) == CollapseSlashes(p) + CollapseSlashes(t)
  {
    assert p == [p[0]] && p[1..] == [];
    SplitSingle(p[0], t);
    CollapseStep(p);
  }

  /** A match at the front of `p + t` lies inside `p`. */
  lemma RunInside(p: string, t: string)
    requires SplitPoint(p, t) && RunAt(p + t, 0) && |p| >= 2
    ensures |p| >= 3 && RunAt(p, 0)
  {
    assert (p + t)[1] == p[1];
  }

  /** The rewrite works piece by piece: no match reaches across a split
      point, and the scan of `p` ends exactly where `t` begins. */
  lemma {:induction false} CollapseSplit(p: string, t: string)
    requires SplitPoint(p, t)
    ensures CollapseSlashes(p + t) == CollapseSlashes(p) + CollapseSlashes(t)
    decreases |p|
  {
    if |p| == 1 {
      SplitOne(p, t);
    } else if RunAt(p + t, 0) {
      RunInside(p, t);
      DropSlashesKeepsEnd(p[2..]);
      CollapseSplit(DropSlashes(p[2..]), t);
      SplitAtRun(p, t);
    } else {
      CollapseSplit(p[1..], t);
      SplitAtChar(p, t);
    }
  }

  /** A run of slashes reaching into `t` stops at its first character
      when that is no slash. */
  lemma {:induction false} DropSlashesBefore(a: string, t: string)
    requires t != [] && t[0] != '/'
    ensures DropSlashes(a + t) == DropSlashes(a) + t
    decreases |a|
  {
    if a == [] {
      EmptyLeft(t);
    } else if a[0] == '/' {
      assert (a + t)[1..] == a[1..] + t;
      DropSlashesBefore(a[1..], t);
    }
  }

  /** A match at the front of `p + t` lies inside `p` when `t` starts with
      a character other than a slash. */
  lemma RunBefore(p: string, t: string)
    requires p != [] && t != [] && t[0] != '/' && RunAt(p + t, 0)
    ensures |p| >= 3 && RunAt(p, 0)
  {
    if |p| >= 3 {
      assert (p + t)[..3] == p[..3];
    }
  }

  lemma RunAppendBefore(p: string, t: string)
    requires t != [] && t[0] != '/' && |p| >= 3 && RunAt(p + t, 0)
    ensures CollapseSlashes(p + t) == [p[0], '/'] + CollapseSlashes(DropSlashes(p[2..]) + t)
  {
    assert (p + t)[2..] == p[2..] + t;
    DropSlashesBefore(p[2..], t);
  }

  lemma SplitRunBefore(p: string, t: string)
    requires t != [] && t[0] != '/' && |p| >= 3 && RunAt(p + t, 0) && RunAt(p, 0)
    requires CollapseSlashes(DropSlashes(p[2..]) + t) == CollapseSlashes(DropSlashes(p[2..])) + CollapseSlashes(t)
    ensures CollapseSlashes(p + t) == CollapseSlashes(p) + CollapseSlashes(t)
  {
    RunAppendBefore(p, t);
    RunStep(p);
    Assoc([p[0], '/'], CollapseSlashes(DropSlashes(p[2..])), CollapseSlashes(t));
  }

  lemma SplitCharBefore(p: string, t: string)
    requires p != [] && !RunAt(p + t, 0) && !RunAt(p, 0)
    requires CollapseSlashes(p[1..] + t) == CollapseSlashes(p[1..]) + CollapseSlashes(t)
    ensures CollapseSlashes(p + t) == CollapseSlashes(p) + CollapseSlashes(t)
  {
    StepAppend(p, t);
    CollapseStep(p);
    Assoc([p[0]], CollapseSlashes(p[1..]), CollapseSlashes(t));
  }

  /** Whatever `p` ends with, the rewrite splits in front of a character
      other than a slash: a match is one character followed by slashes
      only, so none reaches across it. */
  lemma {:induction false} SplitBeforeNonSlash(p: string, t: string)
    requires t != [] && t[0] != '/'
    ensures CollapseSlashes(p + t) == CollapseSlashes(p) + CollapseSlashes(t)
    decreases |p|
  {
    if p == [] {
      EmptyLeft(t);
      EmptyLeft(CollapseSlashes(t));
    } else if RunAt(p + t, 0) {
      RunBefore(p, t);
      SplitBeforeNonSlash(DropSlashes(p[2..]), t);
      SplitRunBefore(p, t);
    } else {
      SplitBeforeNonSlash(p[1..], t);
      SplitCharBefore(p, t);
    }
  }

  lemma RunShape(c: char, k: nat, t: string)
    requires k >= 1
    ensures k == 1 ==> [c] + Slashes(k) + t == [c] + (['/'] + t)
    ensures k >= 2 ==> ([c] + Slashes(k) + t)[0] == c && ([c] + Slashes(k) + t)[1] == '/'
    ensures k >= 2 ==> ([c] + Slashes(k) + t)[2] == '/' && ([c] + Slashes(k) + t)[2..] == Slashes(k - 1) + t
  {
  }

  lemma OneSlashAtFront(c: char, t: string)
    requires c != ':' && c != '/'
    requires t == [] || t[0] != '/'
    ensures CollapseSlashes([c] + (['/'] + t)) == [c, '/'] + CollapseSlashes(t)
  {
    var u := ['/'] + t;
    ConsTail('/', t);
    ConsTail(c, u);
    CollapseStep(u);
    CollapseStep([c] + u);
    Assoc([c], ['/'], CollapseSlashes(t));
  }

  lemma SlashesAtFront(c: char, k: nat, t: string)
    requires c != ':' && c != '/' && k >= 2
    requires t == [] || t[0] != '/'
    ensures CollapseSlashes([c] + Slashes(k) + t) == [c, '/'] + CollapseSlashes(t)
  {
    RunShape(c, k, t);
    RunStep([c] + Slashes(k) + t);
    DropSlashesRun(k - 1, t);
  }

  /** A run of slashes after a character other than a colon, at the
      front of the string, shrinks to one slash. */
  lemma RunAtFront(c: char, k: nat, t: string)
    requires c != ':' && c != '/' && k >= 1
    requires t == [] || t[0] != '/'
    ensures CollapseSlashes([c] + Slashes(k) + t) == [c, '/'] + CollapseSlashes(t)
  {
    if k == 1 {
      RunShape(c, k, t);
      OneSlashAtFront(c, t);
    } else {
      SlashesAtFront(c, k, t);
    }
  }

  lemma EmptyLeft(s: string)
    ensures [] + s == s
  {
  }

  lemma RegroupRun(p: string, c: char, k: nat, t: string)
    ensures p + [c] + Slashes(k) + t == p + ([c] + Slashes(k) + t)
  {
  }

  /** A run of slashes after a character other than a colon shrinks to one
      slash, wherever it stands in the string. */
  lemma RunCollapsed(p: string, c: char, k: nat, t: string)
    requires c != ':' && c != '/' && k >= 1
    requires t == [] || t[0] != '/'
    ensures CollapseSlashes(p + [c] + Slashes(k) + t) == CollapseSlashes(p) + [c, '/'] + CollapseSlashes(t)
  {
    RunAtFront(c, k, t);
    RegroupRun(p, c, k, t);
    SplitBeforeNonSlash(p, [c] + Slashes(k) + t);
    Assoc(CollapseSlashes(p), [c, '/'], CollapseSlashes(t));
  }

  lemma ConsTail(c: char, t: string)
    ensures ([c] + t)[0] == c && ([c] + t)[1..] == t
  {
  }

  /** Two slashes opening the string are kept. */
  lemma LeadingPairKept(t: string)
    requires t == [] || t[0] != '/'
    ensures CollapseSlashes("//" + t) == "//" + CollapseSlashes(t)
  {
    var u := ['/'] + t;
    var v := ['/'] + u;
    ConsTail('/', t);
    ConsTail('/', u);
    CollapseStep(u);
    CollapseStep(v);
    Assoc(['/'], ['/'], CollapseSlashes(t));
    Assoc(['/'], ['/'], t);
  }

  lemma ColonAppended(p: string)
    ensures CollapseSlashes(p + ":") == CollapseSlashes(p) + ":"
  {
    SplitBeforeNonSlash(p, ":");
  }

  lemma RegroupScheme(p: string, t: string)
    ensures p + "://" + t == (p + ":") + ("//" + t)
  {
  }

  /** The `//` of a scheme is kept, wherever it stands: a colon cannot
      start a match. */
  lemma SchemeSeparatorKept(p: string, t: string)
    requires t == [] || t[0] != '/'
    ensures CollapseSlashes(p + "://" + t) == CollapseSlashes(p) + "://" + CollapseSlashes(t)
  {
    LeadingPairKept(t);
    ColonAppended(p);
    RegroupScheme(p, t);
    CollapseSplit(p + ":", "//" + t);
    RegroupScheme(CollapseSlashes(p), CollapseSlashes(t));
  }

  function Min2(k: nat): nat {
    if k < 2 then k else 2
  }

  /** A reading of the rewrite run by run, independent of the scan: every
      maximal run of slashes shrinks to one slash when it follows a
      character other than a colon, and keeps at most two slashes when it
      follows a colon or opens the string; every other character is
      copied. `afterOther` says whether the previous character is one
      other than a colon. */
  function CollapseRuns(s: string, afterOther: bool): string
    decreases |s|
  {
    if s == [] then []
    else if s[0] == '/' then
      var rest := DropSlashes(s);
      Slashes(if afterOther then 1 else Min2(|s| - |rest|)) + CollapseRuns(rest, false)
    else [s[0]] + CollapseRuns(s[1..], s[0] != ':')
  }

  /** Once the previous character is known to be no slash, only a run
      that follows it can depend on it. */
  lemma RunsFlagIrrelevant(u: string, b: bool)
    requires u == [] || u[0] != '/'
    ensures CollapseRuns(u, b) == CollapseRuns(u, false)
  {
  }

  /** Dropping a leading slash does not change where the run ends. */
  lemma DropSlashesTail(s: string)
    requires s != [] && s[0] == '/'
    ensures DropSlashes(s) == DropSlashes(s[1..])
    ensures |DropSlashes(s)| < |s|
  {
  }

  lemma SlashesSmall()
    ensures Slashes(1) == ['/'] && Slashes(2) == ['/', '/'] && ['/'] + ['/'] == ['/', '/']
  {
  }

  lemma PairDisplay(a: char, b: char)
    ensures [a] + [b] == [a, b]
  {
  }

  lemma RunsAtSlash(s: string, b: bool)
    requires s != [] && s[0] == '/'
    ensures CollapseRuns(s, b) ==
      Slashes(if b then 1 else Min2(|s| - |DropSlashes(s)|)) + CollapseRuns(DropSlashes(s), false)
  {
  }

  lemma RunsAtChar(s: string, b: bool)
    requires s != [] && s[0] != '/'
    ensures CollapseRuns(s, b) == [s[0]] + CollapseRuns(s[1..], s[0] != ':')
  {
  }

  /** Where a run of slashes ends, seen from one slash further on. */
  lemma ShiftOpen(s: string)
    requires |s| >= 2 && s[1] == '/'
    ensures DropSlashes(s[1..]) == DropSlashes(s[2..])
  {
    assert s[1..][1..] == s[2..];
  }

  lemma {:induction false} LeadingRunLong(s: string)
    requires s != [] && s[0] == '/' && |s| - |DropSlashes(s)| >= 3
    ensures CollapseSlashes(s) == CollapseRuns(s, false)
    decreases |s|, 0
  {
    DropSlashesTail(s);
    CollapseMatchesRuns(DropSlashes(s));
    assert RunAt(s, 0);
    ShiftOpen(s);
    RunStep(s);
    RunsAtSlash(s, false);
    SlashesSmall();
  }

  lemma PairOpen(s: string)
    requires s != [] && s[0] == '/' && |s| - |DropSlashes(s)| == 2
    ensures s == "//" + DropSlashes(s)
    ensures DropSlashes(s) == [] || DropSlashes(s)[0] != '/'
  {
    assert DropSlashes(s) == s[2..];
  }

  lemma {:induction false} LeadingRunPair(s: string)
    requires s != [] && s[0] == '/' && |s| - |DropSlashes(s)| == 2
    ensures CollapseSlashes(s) == CollapseRuns(s, false)
    decreases |s|, 0
  {
    DropSlashesTail(s);
    CollapseMatchesRuns(DropSlashes(s));
    var rest := DropSlashes(s);
    PairOpen(s);
    LeadingPairKept(rest);
    RunsAtSlash(s, false);
    SlashesSmall();
  }

  lemma {:induction false} LeadingRunSingle(s: string)
    requires s != [] && s[0] == '/' && |s| - |DropSlashes(s)| == 1
    ensures CollapseSlashes(s) == CollapseRuns(s, false)
    decreases |s|, 0
  {
    DropSlashesTail(s);
    CollapseMatchesRuns(DropSlashes(s));
    assert DropSlashes(s) == s[1..];
    CollapseStep(s);
    RunsAtSlash(s, false);
    SlashesSmall();
  }

  /** A character that no slash follows. */
  lemma {:induction false} HeadPlain(s: string)
    requires s != [] && s[0] != '/' && (|s| == 1 || s[1] != '/')
    ensures CollapseSlashes(s) == CollapseRuns(s, false)
    decreases |s|, 0
  {
    CollapseMatchesRuns(s[1..]);
    CollapseStep(s);
    RunsFlagIrrelevant(s[1..], s[0] != ':');
  }

  /** A character other than a colon followed by two or more slashes. */
  lemma {:induction false} HeadShrinks(s: string)
    requires |s| >= 3 && s[0] != '/' && s[0] != ':' && s[1] == '/' && s[2] == '/'
    ensures CollapseSlashes(s) == CollapseRuns(s, false)
    decreases |s|, 0
  {
    DropSlashesTail(s[1..]);
    CollapseMatchesRuns(DropSlashes(s[1..]));
    ShiftOpen(s);
    RunStep(s);
    RunsAtChar(s, false);
    RunsAtSlash(s[1..], true);
    SlashesSmall();
    Assoc([s[0]], ['/'], CollapseRuns(DropSlashes(s[1..]), false));
    PairDisplay(s[0], '/');
  }

  /** A colon followed by slashes, or a character followed by exactly one
      slash: the character is copied and the run is read on its own. */
  lemma {:induction false} HeadKeeps(s: string)
    requires |s| >= 2 && s[0] != '/' && s[1] == '/'
    requires s[0] == ':' || |s| == 2 || s[2] != '/'
    ensures CollapseSlashes(s) == CollapseRuns(s, false)
    decreases |s|, 0
  {
    CollapseMatchesRuns(s[1..]);
    CollapseStep(s);
    if s[0] != ':' {
      var u := s[1..];
      DropSlashesTail(u);
      assert DropSlashes(u) == u[1..];
    }
  }

  /** A string that opens with a run of slashes. */
  lemma {:induction false} LeadingRun(s: string)
    requires s != [] && s[0] == '/'
    ensures CollapseSlashes(s) == CollapseRuns(s, false)
    decreases |s|, 1
  {
    var k := |s| - |DropSlashes(s)|;
    if k >= 3 {
      LeadingRunLong(s);
    } else if k == 2 {
      LeadingRunPair(s);
    } else {
      LeadingRunSingle(s);
    }
  }

  /** The scan and the run-by-run reading agree on every string. */
  lemma {:induction false} CollapseMatchesRuns(s: string)
    ensures CollapseSlashes(s) == CollapseRuns(s, false)
    decreases |s|, 2
  {
    if s == [] {
    } else if s[0] == '/' {
      LeadingRun(s);
    } else if |s| == 1 || s[1] != '/' {
      HeadPlain(s);
    } else if s[0] != ':' && |s| >= 3 && s[2] == '/' {
      HeadShrinks(s);
    } else {
      HeadKeeps(s);
    }
  }

  /** The link returned after a successful upload: with a public domain,
      the domain and the key joined by a slash with runs of slashes after
      a non-colon shrunk; otherwise the account's storage endpoint. */
  function PublicUrl(env: Env, key: string): (url: string)
    ensures Truthy(env.publicDomain) ==> 0 < |url| <= |env.publicDomain.value| + 1 + |key|
    ensures Truthy(env.publicDomain) ==> url[0] == env.publicDomain.value[0]
    ensures !Truthy(env.publicDomain) ==> |url| > |key| && url[|url| - |key|..] == key
  {
    if Truthy(env.publicDomain) then
      CollapseSlashes(env.publicDomain.value + "/" + key)
    else "https://" + Render(env.accountId) + ".r2.cloudflarestorage.com/" + Render(env.bucketName) + "/" + key
  }

  /** With a public domain the link is the run-by-run rewrite of domain,
      slash and key, with nothing left to match and every character other
      than a slash kept in order; without one it is
      `https://<account>.r2.cloudflarestorage.com/<bucket>/<key>`. */
  lemma PublicUrlShape(env: Env, key: string)
    ensures Truthy(env.publicDomain) ==>
      && PublicUrl(env, key) == CollapseRuns(env.publicDomain.value + "/" + key, false)
      && NoRun(PublicUrl(env, key))
      && Unslashed(PublicUrl(env, key)) == Unslashed(env.publicDomain.value + "/" + key)
    ensures !Truthy(env.publicDomain) ==>
      PublicUrl(env, key) ==
        "https://" + Render(env.accountId) + ".r2.cloudflarestorage.com/" + Render(env.bucketName) + "/" + key
  {
    if Truthy(env.publicDomain) {
      CollapseMatchesRuns(env.publicDomain.value + "/" + key);
      CollapseLeavesNoRun(env.publicDomain.value + "/" + key);
      CollapseKeepsOtherChars(env.publicDomain.value + "/" + key);
    }
  }

  lemma NoSlashFixed(s: string)
    requires NoSlash(s)
    ensures CollapseSlashes(s) == s
  {
    CollapseIdentity(s);
  }

  /** An object key cut around its one fixed slash. */
  lemma KeyShape(orderId: string, now: nat)
    requires NoSlash(orderId)
    ensures NoSlash(orderId + "_" + Decimal(now) + ".webm")
    ensures ObjectKey(orderId, now) == "order" + ['s'] + Slashes(1) + (orderId + "_" + Decimal(now) + ".webm")
    ensures ObjectKey(orderId, now) == "order" + ['s', '/'] + (orderId + "_" + Decimal(now) + ".webm")
  {
    var d := Decimal(now);
    DigitsNoSlash(d);
    KeyRegroup(orderId, d);
  }

  lemma DigitsNoSlash(d: string)
    requires IsDigits(d)
    ensures NoSlash(d)
  {
  }

  /** The key's pieces regrouped around its fixed slash. */
  lemma KeyRegroup(orderId: string, d: string)
    requires NoSlash(orderId) && NoSlash(d)
    ensures NoSlash(orderId + "_" + d + ".webm")
    ensures "orders/" + orderId + "_" + d + ".webm" == "order" + ['s'] + Slashes(1) + (orderId + "_" + d + ".webm")
    ensures "orders/" + orderId + "_" + d + ".webm" == "order" + ['s', '/'] + (orderId + "_" + d + ".webm")
  {
  }

  /** A key made from an order id without slashes has nothing to rewrite. */
  lemma KeyFixed(orderId: string, now: nat)
    requires NoSlash(orderId)
    ensures CollapseSlashes(ObjectKey(orderId, now)) == ObjectKey(orderId, now)
  {
    KeyShape(orderId, now);
    RunCollapsed("order", 's', 1, orderId + "_" + Decimal(now) + ".webm");
    NoSlashFixed("order");
    NoSlashFixed(orderId + "_" + Decimal(now) + ".webm");
  }

  /** A domain `https://<host>` followed by `j` slashes, cut the way the
      rewrite reads it. */
  lemma DomainShape(host: string, j: nat, key: string)
    ensures ("https://" + host + Slashes(j)) + "/" + key == "https" + "://" + (host + Slashes(j + 1) + key)
    ensures "https" + "://" + (host + "/" + key) == "https://" + host + "/" + key
  {
  }

  lemma HostShape(host: string, j: nat, key: string)
    requires host != [] && NoSlash(host)
    ensures host + Slashes(j + 1) + key == host[..|host| - 1] + [host[|host| - 1]] + Slashes(j + 1) + key
    ensures host[..|host| - 1] + [host[|host| - 1], '/'] + key == host + "/" + key
    ensures NoSlash(host[..|host| - 1]) && (host + Slashes(j + 1) + key)[0] != '/'
  {
    assert host == host[..|host| - 1] + [host[|host| - 1]];
  }

  /** A host name followed by any run of slashes and the key: the run
      shrinks to one slash. */
  lemma HostRun(host: string, j: nat, key: string)
    requires host != [] && NoSlash(host) && host[|host| - 1] != ':'
    requires (key == [] || key[0] != '/') && CollapseSlashes(key) == key
    ensures CollapseSlashes(host + Slashes(j + 1) + key) == host + "/" + key
    ensures (host + Slashes(j + 1) + key)[0] != '/'
  {
    HostShape(host, j, key);
    RunCollapsed(host[..|host| - 1], host[|host| - 1], j + 1, key);
    NoSlashFixed(host[..|host| - 1]);
  }

  /** For a domain `https://<host>`, with or without trailing slashes, and
      an order id without slashes, the link is exactly
      `https://<host>/<key>`. */
  lemma PublicUrlOfDomain(env: Env, host: string, j: nat, orderId: string, now: nat)
    requires env.publicDomain == Some("https://" + host + Slashes(j))
    requires host != [] && NoSlash(host) && host[|host| - 1] != ':'
    requires NoSlash(orderId)
    ensures PublicUrl(env, ObjectKey(orderId, now)) == "https://" + host + "/" + ObjectKey(orderId, now)
  {
    var key := ObjectKey(orderId, now);
    KeyFixed(orderId, now);
    HostLink(env, host, j, key);
  }

  lemma HostLink(env: Env, host: string, j: nat, key: string)
    requires env.publicDomain == Some("https://" + host + Slashes(j))
    requires host != [] && NoSlash(host) && host[|host| - 1] != ':'
    requires key != [] && key[0] != '/' && CollapseSlashes(key) == key
    ensures PublicUrl(env, key) == "https://" + host + "/" + key
  {
    DomainLink(host, j, key);
  }

  lemma DomainLink(host: string, j: nat, key: string)
    requires host != [] && NoSlash(host) && host[|host| - 1] != ':'
    requires key != [] && key[0] != '/' && CollapseSlashes(key) == key
    ensures CollapseSlashes(("https://" + host + Slashes(j)) + "/" + key) == "https://" + host + "/" + key
  {
    DomainShape(host, j, key);
    NoSlashFixed("https");
    SchemeLink("https", host, j, key);
  }

  /** A scheme that the rewrite leaves alone, `://`, and a host followed
      by a run of slashes and the key. */
  lemma SchemeLink(scheme: string, host: string, j: nat, key: string)
    requires CollapseSlashes(scheme) == scheme
    requires host != [] && NoSlash(host) && host[|host| - 1] != ':'
    requires key != [] && key[0] != '/' && CollapseSlashes(key) == key
    ensures CollapseSlashes(scheme + "://" + (host + Slashes(j + 1) + key)) == scheme + "://" + (host + "/" + key)
  {
    HostRun(host, j, key);
    SchemeSeparatorKept(scheme, host + Slashes(j + 1) + key);
  }

  const NotConfiguredMessage: string := "R2 Client not configured."
  const UploadFailedMessage: string := "Failed to upload video to Cloudflare R2"

  /** The `PutObjectCommand` handed to the client. */
  datatype PutObject = PutObject(bucket: Option<string>, key: string, body: seq<byte>, contentType: string)

  predicate StrictlyIncreasing(xs: seq<nat>) {
    forall i, j :: 0 <= i < j < |xs| ==> xs[i] < xs[j]
  }

  /** `uploadVideoToR2`. The clock reading, whether a progress callback was
      passed and the outcome of the awaited `send` are inputs. Returns the
      link or the error message, the progress values reported in order, and
      the command sent, if any. */
  method UploadVideo(env: Env, videoBlob: seq<byte>, orderId: string, now: nat,
                     reportsProgress: bool, sendSucceeds: bool)
    returns (result: Result<string, string>, progress: seq<nat>, sent: Option<PutObject>)
    ensures !HasClient(env) ==> result == Failure(NotConfiguredMessage) && progress == [] && sent.None?
    ensures HasClient(env) ==> sent == Some(PutObject(env.bucketName, ObjectKey(orderId, now), videoBlob, "video/webm"))
    ensures HasClient(env) && sendSucceeds ==> result == Success(PublicUrl(env, ObjectKey(orderId, now)))
    ensures HasClient(env) && !sendSucceeds ==> result == Failure(UploadFailedMessage)
    ensures StrictlyIncreasing(progress)
    ensures forall i :: 0 <= i < |progress| ==> progress[i] <= 100
    ensures 100 in progress <==> reportsProgress && result.Success?
    ensures reportsProgress && HasClient(env) ==> progress == [10, 50] + (if sendSucceeds then [100] else [])
    ensures !reportsProgress ==> progress == []
  {
    progress := [];
    if !HasClient(env) {
      result, sent := Failure(NotConfiguredMessage), None;
      return;
    }
    var key := ObjectKey(orderId, now);
    if reportsProgress {
      progress := progress + [10];
    }
    sent := Some(PutObject(env.bucketName, key, videoBlob, "video/webm"));
    if reportsProgress {
      progress := progress + [50];
    }
    if sendSucceeds {
      if reportsProgress {
        progress := progress + [100];
      }
      result := Success(PublicUrl(env, key));
    } else {
      result := Failure(UploadFailedMessage);
    }
  }
}
