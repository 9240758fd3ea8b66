/**
 * The random letter generator of upstream/upstream.go: rejection sampling over
 * the 6-bit groups of 63-bit random draws.
 *
 * The random source is the sequence of values its `Int63` method returns, in
 * order. Each draw fills a cache; the generator reads the cache's lowest six
 * bits as an index into the alphabet, shifts the cache right by six bits, and
 * after `LetterIdxMax` groups takes a new draw. A group of 52 or more is
 * rejected: it is consumed, but nothing is written for it. The output is
 * written from its last position down to its first.
 */
module Letters {

  /** The alphabet: the 26 lower-case then the 26 upper-case ASCII letters. */
  const LetterBytes: string := "abcdefghijklmnopqrstuvwxyzABCDEFGHIJKLMNOPQRSTUVWXYZ"
  /** The number of letters, `len(letterBytes)`. */
  const AlphabetSize: nat := 52
  /** Bits per letter index. */
  const LetterIdxBits: nat := 6
  /** The number of values a group can take: `letterIdxMask + 1`, i.e. 1 << 6. */
  const GroupRange: nat := 64
  /** The number of groups read from one 63-bit draw: 63 / 6. */
  const LetterIdxMax: nat := 10

  /** The letter an accepted group selects. */
  function Letter(g: nat): (c: char)
    requires g < AlphabetSize
  {
    LetterBytes[g]
  }

  /** The values `Int63` can return. */
  type Int63 = x: int | 0 <= x < 0x8000_0000_0000_0000

  /**
   * The next `m` groups held by `cache`, lowest bits first. Since a draw is
   * never negative, `cache & letterIdxMask` is `cache % 64` and
   * `cache >>= letterIdxBits` is `cache / 64`.
   */
  function GroupsOf(cache: nat, m: nat): (gs: seq<nat>)
    ensures |gs| == m
    ensures forall j :: 0 <= j < m ==> gs[j] < GroupRange
  {
    if m == 0 then [] else [cache % GroupRange] + GroupsOf(cache / GroupRange, m - 1)
  }

  /** The groups one draw supplies before the cache is refilled. */
  function DrawGroups(x: Int63): (gs: seq<nat>)
    ensures |gs| == LetterIdxMax
  {
    GroupsOf(x, LetterIdxMax)
  }

  /** Every group the draws of `source` supply, in the order they are read. */
  function GroupStream(source: seq<Int63>): seq<nat> {
    if source == [] then [] else GroupStream(source[..|source| - 1]) + DrawGroups(source[|source| - 1])
  }

  /** The groups that are accepted as letter indices, in order; groups of 52 or more are dropped. */
  function Accepted(gs: seq<nat>): (acc: seq<nat>)
    ensures |acc| <= |gs|
    ensures forall j :: 0 <= j < |acc| ==> acc[j] < AlphabetSize
  {
    if gs == [] then []
    else if gs[|gs| - 1] < AlphabetSize then Accepted(gs[..|gs| - 1]) + [gs[|gs| - 1]]
    else Accepted(gs[..|gs| - 1])
  }

  /** The accepted groups of a whole source. */
  function AcceptedOf(source: seq<Int63>): seq<nat> {
    Accepted(GroupStream(source))
  }

  /**
   * What the generator returns for length `n`: position `i` holds the letter
   * of the `(n - 1 - i)`-th accepted group.
   */
  function RandomLetters(n: nat, source: seq<Int63>): (s: string)
    requires n <= |AcceptedOf(source)|
    ensures |s| == n
  {
    var acc := AcceptedOf(source);
    seq(n, i requires 0 <= i < n => Letter(acc[n - 1 - i]))
  }

  /** Every character of the output is a letter of the alphabet. */
  lemma RandomLettersInAlphabet(n: nat, source: seq<Int63>)
    requires n <= |AcceptedOf(source)|
    ensures forall i :: 0 <= i < n ==> RandomLetters(n, source)[i] in LetterBytes
  {
    var acc := AcceptedOf(source);
    forall i | 0 <= i < n
      ensures RandomLetters(n, source)[i] in LetterBytes
    {
      var g := acc[n - 1 - i];
      assert RandomLetters(n, source)[i] == Letter(g);
    }
  }

  /** Filtering distributes over concatenation. */
  lemma {:induction false} AcceptedAppend(a: seq<nat>, b: seq<nat>)
    ensures Accepted(a + b) == Accepted(a) + Accepted(b)
    decreases |b|
  {
    if b == [] {
      assert a + b == a;
    } else {
      var b' := b[..|b| - 1];
      assert (a + b)[..|a + b| - 1] == a + b';
      AcceptedAppend(a, b');
    }
  }

  /** The group stream of two runs of draws is the concatenation of their streams. */
  lemma {:induction false} GroupStreamAppend(s: seq<Int63>, t: seq<Int63>)
    ensures GroupStream(s + t) == GroupStream(s) + GroupStream(t)
    decreases |t|
  {
    if t == [] {
      assert s + t == s;
    } else {
      var t' := t[..|t| - 1];
      assert (s + t)[..|s + t| - 1] == s + t';
      GroupStreamAppend(s, t');
    }
  }

  /**
   * Growing the output by one letter puts the new letter in FRONT: the
   * letters drawn first end up at the end of the string.
   */
  lemma RandomLettersGrow(n: nat, source: seq<Int63>)
    requires n + 1 <= |AcceptedOf(source)|
    ensures RandomLetters(n + 1, source) == [Letter(AcceptedOf(source)[n])] + RandomLetters(n, source)
  {
    var acc := AcceptedOf(source);
    var longer, shorter := RandomLetters(n + 1, source), RandomLetters(n, source);
    assert forall i :: 1 <= i < n + 1 ==> longer[i] == shorter[i - 1];
  }

  /**
   * Taking more draws from the source never changes the letters already
   * determined: the output depends only on the first draws that hold `n`
   * accepted groups.
   */
  lemma RandomLettersPrefix(n: nat, source: seq<Int63>, d: nat)
    requires d <= |source| && n <= |AcceptedOf(source[..d])|
    ensures n <= |AcceptedOf(source)|
    ensures RandomLetters(n, source) == RandomLetters(n, source[..d])
  {
    assert source == source[..d] + source[d..];
    GroupStreamAppend(source[..d], source[d..]);
    AcceptedAppend(GroupStream(source[..d]), GroupStream(source[d..]));
  }

  /**
   * The generator's reading position: `draws` values taken from the source,
   * `consumed` every group read so far, and `cache` holding the `remain`
   * groups of the last draw not yet read.
   */
  ghost predicate ReadState(source: seq<Int63>, draws: nat, cache: nat, remain: nat, consumed: seq<nat>)
  {
    && 1 <= draws <= |source|
    && remain <= LetterIdxMax
    && GroupStream(source[..draws]) == consumed + GroupsOf(cache, remain)
  }

  /**
   * The generator, over a source of at least one draw that supplies at least
   * `n` accepted groups (the real source never runs dry). Besides the string
   * it returns how many draws it took: the first draw is taken even for
   * `n == 0`, and a further one only once the ten groups of the current one
   * are used up while letters are still missing.
   */
  method RandStringBytesMaskImprSrc(n: nat, source: seq<Int63>) returns (s: string, draws: nat)
    requires 1 <= |source| && n <= |AcceptedOf(source)|
    ensures s == RandomLetters(n, source)
    ensures 1 <= draws <= |source|
    ensures n <= |AcceptedOf(source[..draws])|
    ensures FewerBefore(source, draws, n)
  {
    var b := new char[n];
    var i: int := n - 1;
    var cache: nat := source[0];
    var remain: nat := LetterIdxMax;
    draws := 1;
    ghost var consumed: seq<nat> := [];  // every group read so far
    ghost var acc: seq<nat> := [];       // the accepted ones among them
    ReadStart(source);
    while i >= 0
      invariant -1 <= i < n
      invariant ReadState(source, draws, cache, remain, consumed)
      invariant acc == Accepted(consumed) && |acc| == n - 1 - i
      invariant forall j :: i < j < n ==> b[j] == Letter(acc[n - 1 - j])
      invariant FewerBefore(source, draws, n)
      decreases |source| - draws, remain
    {
      if remain == 0 {
        ReadRefill(source, draws, cache, consumed, n);
        cache, remain := source[draws], LetterIdxMax;
        draws := draws + 1;
      }
      var idx: nat := cache % GroupRange;
      ReadStep(source, draws, cache, remain, consumed);
      if idx < AlphabetSize {
        b[i] := Letter(idx);
        acc := acc + [idx];
        i := i - 1;
      }
      consumed := consumed + [idx];
      cache := cache / GroupRange;
      remain := remain - 1;
    }
    s := b[..];
    ReadFinished(source, draws, cache, remain, consumed, n);
    OutputIsRandomLetters(s, acc, n, source);
  }

  /** All draws but the last taken supply fewer than `n` accepted groups: the last one was needed. */
  ghost predicate FewerBefore(source: seq<Int63>, draws: nat, n: nat)
    requires 1 <= draws <= |source|
  {
    draws == 1 || |AcceptedOf(source[..draws - 1])| < n
  }

  /** Before the loop: one draw taken, none of its groups read. */
  lemma ReadStart(source: seq<Int63>)
    requires 1 <= |source|
    ensures ReadState(source, 1, source[0], LetterIdxMax, [])
  {
    assert source[..1] == source[..0] + [source[0]];
    GroupStreamSnoc(source[..0], source[0]);
  }

  /** Reading one group from the cache moves exactly that group to the groups read. */
  lemma ReadStep(source: seq<Int63>, draws: nat, cache: nat, remain: nat, consumed: seq<nat>)
    requires ReadState(source, draws, cache, remain, consumed) && 0 < remain
    ensures ReadState(source, draws, cache / GroupRange, remain - 1, consumed + [cache % GroupRange])
    ensures Accepted(consumed + [cache % GroupRange]) ==
      if cache % GroupRange < AlphabetSize then Accepted(consumed) + [cache % GroupRange] else Accepted(consumed)
  {
    var g := cache % GroupRange;
    assert consumed + GroupsOf(cache, remain) == (consumed + [g]) + GroupsOf(cache / GroupRange, remain - 1);
    var c' := consumed + [g];
    assert c'[..|c'| - 1] == consumed;
  }

  /** When the cache is used up and letters are still missing, an unread draw remains, and it is taken. */
  lemma ReadRefill(source: seq<Int63>, draws: nat, cache: nat, consumed: seq<nat>, n: nat)
    requires ReadState(source, draws, cache, 0, consumed)
    requires n <= |AcceptedOf(source)| && |Accepted(consumed)| < n
    ensures draws < |source|
    ensures ReadState(source, draws + 1, source[draws], LetterIdxMax, consumed)
    ensures FewerBefore(source, draws + 1, n)
  {
    assert GroupStream(source[..draws]) == consumed;
    assert |AcceptedOf(source[..draws])| < |AcceptedOf(source)|;
    assert source[..draws] != source;
    assert source[..draws + 1] == source[..draws] + [source[draws]];
    GroupStreamSnoc(source[..draws], source[draws]);
  }

  /** One more draw appends its ten groups to the stream. */
  lemma GroupStreamSnoc(s: seq<Int63>, x: Int63)
    ensures GroupStream(s + [x]) == GroupStream(s) + DrawGroups(x)
  {
    assert (s + [x])[..|s + [x]| - 1] == s;
  }

  /** The accepted groups of a prefix are a prefix of the accepted groups of the whole. */
  lemma AcceptedPrefix(a: seq<nat>, b: seq<nat>)
    ensures |Accepted(a)| <= |Accepted(a + b)|
    ensures forall j :: 0 <= j < |Accepted(a)| ==> Accepted(a)[j] == Accepted(a + b)[j]
  {
    AcceptedAppend(a, b);
  }

  /**
   * At loop exit the groups read so far are a prefix of the source's group
   * stream, so their accepted groups are a prefix of the source's.
   */
  lemma ReadFinished(source: seq<Int63>, draws: nat, cache: nat, remain: nat, consumed: seq<nat>, n: nat)
    requires ReadState(source, draws, cache, remain, consumed)
    requires n <= |AcceptedOf(source)| && |Accepted(consumed)| == n
    ensures n <= |AcceptedOf(source[..draws])|
    ensures forall j :: 0 <= j < n ==> Accepted(consumed)[j] == AcceptedOf(source)[j]
  {
    var pending := GroupsOf(cache, remain);
    AcceptedPrefix(consumed, pending);
    assert source == source[..draws] + source[draws..];
    GroupStreamAppend(source[..draws], source[draws..]);
    var later := GroupStream(source[draws..]);
    assert GroupStream(source) == consumed + (pending + later);
    AcceptedPrefix(consumed, pending + later);
  }

  /** The array, read back, is `RandomLetters(n, source)` once `acc` agrees with the source's accepted groups. */
  lemma OutputIsRandomLetters(s: string, acc: seq<nat>, n: nat, source: seq<Int63>)
    requires n <= |AcceptedOf(source)| && |s| == n && |acc| == n
    requires forall j :: 0 <= j < n ==> acc[j] == AcceptedOf(source)[j]
    requires forall j :: 0 <= j < n ==> s[j] == Letter(acc[n - 1 - j])
    ensures s == RandomLetters(n, source)
  {
  }

  /**
   * The same generator drawing from the process-wide source; `globalDraws`
   * are the values that source returns from this call on.
   */
  method RandStringBytesMaskImpr(n: nat, globalDraws: seq<Int63>) returns (s: string)
    requires 1 <= |globalDraws| && n <= |AcceptedOf(globalDraws)|
    ensures s == RandomLetters(n, globalDraws)
  {
    var draws;
    s, draws := RandStringBytesMaskImprSrc(n, globalDraws);
  }
}
