/** `create_password` of xoutil/security.py.

    What the function takes from outside is passed in: `normalize_slug(x,
    '', True)` as `slug`, the current year as `year`, and the draws of the
    `random` module as a `Random` value per call. */
module Security {
  import opened Numerals

  const LevelBasic := 0
  const LevelMapped := 1
  const LevelMappedMixed := 2
  const LevelMappedSalted := 3
  const LevelStrict := 4
  const DefaultLevel := LevelMappedSalted
  const MaxPasswordSize := 1024

  /** `PYTHON_ZEN`, the phrases salts are made of. */
  const Zen: seq<string> := [
    "Beautiful is better than ugly.",
    "Explicit is better than implicit.",
    "Simple is better than complex.",
    "Complex is better than complicated.",
    "Flat is better than nested.",
    "Sparse is better than dense.",
    "Readability counts.",
    "Special cases aren't special enough to break the rules.",
    "Although practicality beats purity.",
    "Errors should never pass silently.",
    "Unless explicitly silenced.",
    "In the face of ambiguity, refuse the temptation to guess.",
    "There should be one-- and preferably only one --obvious way to do it.",
    "Although that way may not be obvious at first unless you're Dutch.",
    "Now is better than never.",
    "Although never is often better than *right* now.",
    "If the implementation is hard to explain, it's a bad idea.",
    "If the implementation is easy to explain, it may be a good idea.",
    "Namespaces are one honking great idea -- let's do more of those!"]

  /** The draws one call makes: for the `k`-th salt phrase the two
      `randint` results, and `sample(res, len(res))` as `shuffle`. */
  datatype Random = Random(pick: nat -> (int, int), shuffle: string -> string)

  /** Draws as `randint(1, len(PYTHON_ZEN))`, `randint(10000, 99999)` and
      `sample` make them. */
  ghost predicate Fair(rnd: Random)
  {
    (forall k: nat :: 1 <= rnd.pick(k).0 <= |Zen| && 10000 <= rnd.pick(k).1 <= 99999)
    && (forall s :: multiset(rnd.shuffle(s)) == multiset(s))
  }

  /** A phrase of the zen followed by a five-digit number. */
  function SaltPhrase(i: nat, n: nat): string
    requires i < |Zen|
  {
    Zen[i] + Decimal(n)
  }

  /** The slug of every salt phrase keeps some text: each phrase of the zen
      holds letters, so the padding loops make progress.  Nothing is asked
      of the slug of the pass phrase. */
  ghost predicate KeepsText(slug: string -> string)
  {
    forall i: nat, n: nat | i < |Zen| && 10000 <= n <= 99999 :: slug(SaltPhrase(i, n)) != []
  }

  // ---------------------------------------------------------------------
  // The character stages
  // ---------------------------------------------------------------------

  /** `s.replace(target, subst)` for one-character `target` and `subst`. */
  function Replace(s: string, target: char, subst: char): (r: string)
    ensures |r| == |s|
    ensures forall k | 0 <= k < |s| :: r[k] == if s[k] == target then subst else s[k]
  {
    if s == [] then [] else Replace(s[..|s| - 1], target, subst) + [if s[|s| - 1] == target then subst else s[|s| - 1]]
  }

  /** The replacements made in turn. */
  function ReplaceAll(s: string, pairs: seq<(char, char)>): string
  {
    if pairs == [] then s
    else
      var last := pairs[|pairs| - 1];
      Replace(ReplaceAll(s, pairs[..|pairs| - 1]), last.0, last.1)
  }

  const MappedPairs: seq<(char, char)> := [('e', '3'), ('i', '1'), ('o', '0'), ('s', '5')]

  /** The letters the mixed stage makes upper case. */
  const MixedLetters := "BCDFGHJKLM"

  /** `c.lower()` for an ASCII letter. */
  function Lower(c: char): char
  {
    if 'A' <= c <= 'Z' then (c as int + 32) as char else c
  }

  const MixedPairs: seq<(char, char)> :=
    [('b', 'B'), ('c', 'C'), ('d', 'D'), ('f', 'F'), ('g', 'G'), ('h', 'H'), ('j', 'J'), ('k', 'K'), ('l', 'L'), ('m', 'M')]

  /** What the mapping stage makes of one character. */
  function MappedChar(c: char): char
  {
    if c == 'e' then '3' else if c == 'i' then '1' else if c == 'o' then '0' else if c == 's' then '5' else c
  }

  /** What the mixed stage makes of one character. */
  function MixedChar(c: char): char
  {
    if c in "bcdfghjklm" then (c as int - 32) as char else c
  }

  /** The stages below strict: mapping from level 1, mixing from level 2,
      the year from level 3. */
  function Transformed(base: string, level: int, year: nat): string
  {
    var mapped := if level >= LevelMapped then ReplaceAll(base, MappedPairs) else base;
    var mixed := if level >= LevelMappedMixed then ReplaceAll(mapped, MixedPairs) else mapped;
    if level >= LevelMappedSalted then mixed + Decimal(year) else mixed
  }

  /** The loop `for (old, new) in ('e3', 'i1', 'o0', 's5')`. */
  method MapStage(s: string) returns (r: string)
    ensures r == ReplaceAll(s, MappedPairs)
  {
    r := s;
    var i := 0;
    while i < |MappedPairs|
      invariant 0 <= i <= |MappedPairs|
      invariant r == ReplaceAll(s, MappedPairs[..i])
    {
      var (target, subst) := MappedPairs[i];
      assert MappedPairs[..i + 1][..i] == MappedPairs[..i];
      r := Replace(r, target, subst);
      i := i + 1;
    }
    assert MappedPairs[..i] == MappedPairs;
  }

  /** The loop over "BCDFGHJKLM", replacing each letter's lower case by it. */
  method MixStage(s: string) returns (r: string)
    ensures r == ReplaceAll(s, MixedPairs)
  {
    r := s;
    var i := 0;
    while i < |MixedLetters|
      invariant 0 <= i <= |MixedLetters|
      invariant r == ReplaceAll(s, MixedPairs[..i])
    {
      var subst := MixedLetters[i];
      var target := Lower(subst);
      assert MixedPairs[i] == (target, subst);
      assert MixedPairs[..i + 1][..i] == MixedPairs[..i];
      r := Replace(r, target, subst);
      i := i + 1;
    }
    assert MixedPairs[..i] == MixedPairs;
  }

  // ---------------------------------------------------------------------
  // Sizes and padding
  // ---------------------------------------------------------------------

  /** The size of the password: `8*level`, uncapped, for strict levels with
      a pass phrase; 1024 below them; without a pass phrase 1024 for
      levels up to 0 and `8*level` up to 1024 otherwise. */
  function Size(hasPhrase: bool, level: int): int
  {
    if hasPhrase then
      if level >= LevelStrict then 8 * level else MaxPasswordSize
    else if level <= 0 then MaxPasswordSize
    else if level * 8 > MaxPasswordSize then MaxPasswordSize
    else level * 8
  }

  /** The `k`-th salt phrase: a phrase of the zen and a five-digit number, slugged. */
  function Chunk(rnd: Random, slug: string -> string, k: nat): (c: string)
    requires Fair(rnd) && KeepsText(slug)
    ensures c != []
  {
    var (i, n) := rnd.pick(k);
    assert slug(SaltPhrase(i - 1, n)) != [];
    slug(Zen[i - 1] + Decimal(n))
  }

  /** The loop `while len(res) < size: res += <salt phrase>`, from the
      `k`-th phrase on. */
  function Gather(res: string, size: int, rnd: Random, slug: string -> string, k: nat): (r: string)
    requires Fair(rnd) && KeepsText(slug)
    decreases size - |res|
  {
    if |res| >= size then res else Gather(res + Chunk(rnd, slug, k), size, rnd, slug, k + 1)
  }

  /** `create_password(None, level)`: salt phrases gathered up to the size,
      scrambled, cut to the size. */
  function SaltOf(level: int, rnd: Random, slug: string -> string): string
    requires Fair(rnd) && KeepsText(slug)
  {
    var size := Size(false, level);
    var res := Gather("", size, rnd, slug, 0);
    GatherReaches("", size, rnd, slug, 0);
    ShuffleLength(rnd, res);
    rnd.shuffle(res)[..size]
  }

  /** The loop `while len(res) < size: res += create_password(None)`, from
      the `k`-th salt on; salts use the default level. */
  function PadWithSalts(res: string, size: int, salts: nat -> Random, slug: string -> string, k: nat): string
    requires (forall j: nat :: Fair(salts(j))) && KeepsText(slug)
    decreases size - |res|
  {
    if |res| >= size then res
    else
      SaltLength(DefaultLevel, salts(k), slug);
      PadWithSalts(res + SaltOf(DefaultLevel, salts(k), slug), size, salts, slug, k + 1)
  }

  /** `create_password(pass_phrase, level)`, with an empty `passPhrase` for
      `None` or `''`. */
  function PasswordOf(passPhrase: string, level: int, year: nat, slug: string -> string,
                      rnd: Random, salts: nat -> Random): string
    requires Fair(rnd) && (forall j: nat :: Fair(salts(j))) && KeepsText(slug)
  {
    if passPhrase == [] then SaltOf(level, rnd, slug)
    else
      var res := Transformed(slug(passPhrase), level, year);
      if level >= LevelStrict then
        var size := Size(true, level);
        var padded := PadWithSalts(res, size, salts, slug, 0);
        PadReaches(res, size, salts, slug, 0);
        ShuffleLength(rnd, padded);
        rnd.shuffle(padded)[..size]
      else if |res| <= MaxPasswordSize then res
      else res[..MaxPasswordSize]
  }

  /** The salt loop, on the draws of `rnd`. */
  method GatherSalt(size: int, rnd: Random, slug: string -> string) returns (res: string)
    requires Fair(rnd) && KeepsText(slug)
    ensures res == Gather("", size, rnd, slug, 0)
  {
    res := "";
    var k := 0;
    while |res| < size
      invariant Gather(res, size, rnd, slug, k) == Gather("", size, rnd, slug, 0)
      decreases size - |res|
    {
      var (i, n) := rnd.pick(k);
      var phrase := Zen[i - 1];
      phrase := phrase + Decimal(n);
      res := res + slug(phrase);
      k := k + 1;
    }
  }

  /** The branch without a pass phrase. */
  method CreateSalt(level: int, rnd: Random, slug: string -> string) returns (r: string)
    requires Fair(rnd) && KeepsText(slug)
    ensures r == SaltOf(level, rnd, slug)
    ensures |r| == Size(false, level)
  {
    var size;
    if level <= 0 {
      size := MaxPasswordSize;
    } else {
      size := level * 8;
      if size > MaxPasswordSize {
        size := MaxPasswordSize;
      }
    }
    var res := GatherSalt(size, rnd, slug);
    GatherReaches("", size, rnd, slug, 0);
    ShuffleLength(rnd, res);
    res := rnd.shuffle(res);
    r := res[..size];
  }

  /** The strict padding loop: a salt of the default level appended while
      the text is shorter than `size`. */
  method AddSalts(start: string, size: int, salts: nat -> Random, slug: string -> string) returns (res: string)
    requires (forall j: nat :: Fair(salts(j))) && KeepsText(slug)
    ensures res == PadWithSalts(start, size, salts, slug, 0)
    ensures |res| >= size && res[..|start|] == start
  {
    res := start;
    var k := 0;
    while |res| < size
      invariant PadWithSalts(res, size, salts, slug, k) == PadWithSalts(start, size, salts, slug, 0)
      decreases size - |res|
    {
      var salt := CreateSalt(DefaultLevel, salts(k), slug);
      res := res + salt;
      k := k + 1;
    }
    PadReaches(start, size, salts, slug, 0);
  }

  /** The stages below strict, on the slug of the pass phrase. */
  method Stages(base: string, level: int, year: nat) returns (res: string)
    ensures res == Transformed(base, level, year)
  {
    res := base;
    if level >= LevelMapped {
      res := MapStage(res);
    }
    if level >= LevelMappedMixed {
      res := MixStage(res);
    }
    if level >= LevelMappedSalted {
      res := res + Decimal(year);
    }
  }

  /** `create_password(pass_phrase, level)`: the stages in turn, salts
      appended up to `8*level` and a scramble at strict levels, and the
      result cut to the size. */
  method CreatePassword(passPhrase: string, level: int, year: nat, slug: string -> string,
                        rnd: Random, salts: nat -> Random) returns (r: string)
    requires Fair(rnd) && (forall j: nat :: Fair(salts(j))) && KeepsText(slug)
    ensures r == PasswordOf(passPhrase, level, year, slug, rnd, salts)
  {
    if passPhrase == [] {
      r := CreateSalt(level, rnd, slug);
      return;
    }
    var res := Stages(slug(passPhrase), level, year);
    var scramble, size;
    if level >= LevelStrict {
      scramble := true;
      size := 8 * level;
      res := AddSalts(res, size, salts, slug);
    } else {
      scramble := false;
      size := MaxPasswordSize;
    }
    if scramble {
      ShuffleLength(rnd, res);
      res := rnd.shuffle(res);
    }
    r := if |res| <= size then res else res[..size];
  }

  // ---------------------------------------------------------------------
  // What the password is
  // ---------------------------------------------------------------------

  /** Gathering stops at or past the size, and keeps what it started with. */
  lemma {:induction false} GatherReaches(res: string, size: int, rnd: Random, slug: string -> string, k: nat)
    requires Fair(rnd) && KeepsText(slug)
    ensures |Gather(res, size, rnd, slug, k)| >= size
    ensures |Gather(res, size, rnd, slug, k)| >= |res| && Gather(res, size, rnd, slug, k)[..|res|] == res
    decreases size - |res|
  {
    if |res| < size {
      var next := res + Chunk(rnd, slug, k);
      GatherReaches(next, size, rnd, slug, k + 1);
      assert Gather(res, size, rnd, slug, k)[..|next|][..|res|] == next[..|res|];
    }
  }

  /** Padding with salts stops at or past the size, and keeps what it started with. */
  lemma {:induction false} PadReaches(res: string, size: int, salts: nat -> Random, slug: string -> string, k: nat)
    requires (forall j: nat :: Fair(salts(j))) && KeepsText(slug)
    ensures |PadWithSalts(res, size, salts, slug, k)| >= size
    ensures |PadWithSalts(res, size, salts, slug, k)| >= |res| && PadWithSalts(res, size, salts, slug, k)[..|res|] == res
    decreases size - |res|
  {
    if |res| < size {
      SaltLength(DefaultLevel, salts(k), slug);
      var next := res + SaltOf(DefaultLevel, salts(k), slug);
      PadReaches(next, size, salts, slug, k + 1);
      assert PadWithSalts(res, size, salts, slug, k)[..|next|][..|res|] == next[..|res|];
    }
  }

  /** A salt has exactly its size, and its characters are drawn from the
      gathered phrases. */
  lemma SaltLength(level: int, rnd: Random, slug: string -> string)
    requires Fair(rnd) && KeepsText(slug)
    ensures |SaltOf(level, rnd, slug)| == Size(false, level) > 0
    ensures multiset(SaltOf(level, rnd, slug)) <= multiset(Gather("", Size(false, level), rnd, slug, 0))
  {
    var size := Size(false, level);
    var res := Gather("", size, rnd, slug, 0);
    GatherReaches("", size, rnd, slug, 0);
    var shuffled := rnd.shuffle(res);
    assert |multiset(shuffled)| == |multiset(res)|;
    PrefixSubMultiset(shuffled, size);
  }

  /** A scramble keeps the length. */
  lemma ShuffleLength(rnd: Random, s: string)
    requires Fair(rnd)
    ensures |rnd.shuffle(s)| == |s| && multiset(rnd.shuffle(s)) == multiset(s)
  {
    assert |multiset(rnd.shuffle(s))| == |multiset(s)|;
  }

  /** The characters of a prefix are among the characters of the whole. */
  lemma PrefixSubMultiset(s: string, n: nat)
    requires n <= |s|
    ensures multiset(s[..n]) <= multiset(s)
  {
    assert s == s[..n] + s[n..];
  }

  /** The mapping stage leaves no `e`, `i`, `o` or `s`: it turns them into
      `3`, `1`, `0`, `5`, and keeps every other character. */
  lemma MappedStage(s: string)
    ensures |ReplaceAll(s, MappedPairs)| == |s|
    ensures forall k | 0 <= k < |s| :: ReplaceAll(s, MappedPairs)[k] == MappedChar(s[k])
    ensures forall k | 0 <= k < |s| :: ReplaceAll(s, MappedPairs)[k] !in "eios"
  {
    ReplaceAllChars(s, MappedPairs);
    forall k | 0 <= k < |s|
      ensures ApplyPairs(s[k], MappedPairs) == MappedChar(s[k])
    {
      MappedPairsChar(s[k]);
    }
  }

  lemma MappedPairsChar(c: char)
    ensures ApplyPairs(c, MappedPairs) == MappedChar(c)
  {
    Lookup(c, MappedPairs);
    if c == 'e' {
      assert MappedPairs[0].0 == c;
    } else if c == 'i' {
      assert MappedPairs[1].0 == c;
    } else if c == 'o' {
      assert MappedPairs[2].0 == c;
    } else if c == 's' {
      assert MappedPairs[3].0 == c;
    }
  }

  /** The mixed stage makes b, c, d, f, g, h, j, k, l and m upper case and
      keeps every other character. */
  lemma MixedStage(s: string)
    ensures |ReplaceAll(s, MixedPairs)| == |s|
    ensures forall k | 0 <= k < |s| :: ReplaceAll(s, MixedPairs)[k] == MixedChar(s[k])
  {
    ReplaceAllChars(s, MixedPairs);
    forall k | 0 <= k < |s|
      ensures ApplyPairs(s[k], MixedPairs) == MixedChar(s[k])
    {
      MixedPairsChar(s[k]);
    }
  }

  /** One character through the replacements in turn. */
  function ApplyPairs(c: char, pairs: seq<(char, char)>): char
  {
    if pairs == [] then c
    else
      var last := pairs[|pairs| - 1];
      var d := ApplyPairs(c, pairs[..|pairs| - 1]);
      if d == last.0 then last.1 else d
  }

  /** The replacements act on each character alone. */
  lemma {:induction false} ReplaceAllChars(s: string, pairs: seq<(char, char)>)
    ensures |ReplaceAll(s, pairs)| == |s|
    ensures forall k | 0 <= k < |s| :: ReplaceAll(s, pairs)[k] == ApplyPairs(s[k], pairs)
  {
    if pairs != [] {
      ReplaceAllChars(s, pairs[..|pairs| - 1]);
    }
  }

  lemma MixedPairsChar(c: char)
    ensures ApplyPairs(c, MixedPairs) == MixedChar(c)
  {
    var lows := "bcdfghjklm";
    assert forall i | 0 <= i < |MixedPairs| :: MixedPairs[i].0 == lows[i] && MixedPairs[i].1 == (lows[i] as int - 32) as char;
    Lookup(c, MixedPairs);
    if c in lows {
      var i :| 0 <= i < |lows| && lows[i] == c;
      assert MixedPairs[i].0 == c;
    }
  }

  /** Replacements whose targets differ and whose substitutes are never a
      later target send a character to the substitute of its pair, if any. */
  lemma {:induction false} Lookup(c: char, pairs: seq<(char, char)>)
    requires forall i, j | 0 <= i < j < |pairs| :: pairs[i].0 != pairs[j].0 && pairs[i].1 != pairs[j].0
    ensures forall i | 0 <= i < |pairs| && pairs[i].0 == c :: ApplyPairs(c, pairs) == pairs[i].1
    ensures (forall i | 0 <= i < |pairs| :: pairs[i].0 != c) ==> ApplyPairs(c, pairs) == c
  {
    if pairs != [] {
      var init := pairs[..|pairs| - 1];
      Lookup(c, init);
    }
  }

  /** Below the strict level a pass phrase is transformed but not
      scrambled, and the password is the transformed text cut to 1024
      characters; from level 3 on it ends with the four year digits. */
  lemma BelowStrict(passPhrase: string, level: int, year: nat, slug: string -> string, rnd: Random, salts: nat -> Random)
    requires Fair(rnd) && (forall j: nat :: Fair(salts(j))) && KeepsText(slug)
    requires passPhrase != [] && level < LevelStrict
    ensures var t := Transformed(slug(passPhrase), level, year);
            PasswordOf(passPhrase, level, year, slug, rnd, salts) == if |t| <= MaxPasswordSize then t else t[..MaxPasswordSize]
    ensures var t := Transformed(slug(passPhrase), level, year);
            level >= LevelMappedSalted && 1000 <= year <= 9999 ==> |t| >= 4 && t[|t| - 4..] == Decimal(year)
  {
    var t := Transformed(slug(passPhrase), level, year);
    if level >= LevelMappedSalted && 1000 <= year <= 9999 {
      FourDigits(year);
    }
  }

  /** At strict levels with a pass phrase the password has exactly `8*level`
      characters, even past 1024, all drawn from the transformed text and
      the salts appended to it. */
  lemma Strict(passPhrase: string, level: int, year: nat, slug: string -> string, rnd: Random, salts: nat -> Random)
    requires Fair(rnd) && (forall j: nat :: Fair(salts(j))) && KeepsText(slug)
    requires passPhrase != [] && level >= LevelStrict
    ensures |PasswordOf(passPhrase, level, year, slug, rnd, salts)| == 8 * level
    ensures var t := Transformed(slug(passPhrase), level, year);
            multiset(PasswordOf(passPhrase, level, year, slug, rnd, salts)) <= multiset(PadWithSalts(t, 8 * level, salts, slug, 0))
  {
    var t := Transformed(slug(passPhrase), level, year);
    var padded := PadWithSalts(t, 8 * level, salts, slug, 0);
    PadReaches(t, 8 * level, salts, slug, 0);
    var shuffled := rnd.shuffle(padded);
    assert |multiset(shuffled)| == |multiset(padded)|;
    PrefixSubMultiset(shuffled, 8 * level);
  }

  /** Without a pass phrase the password is a salt of the size the level
      asks for: 1024 for levels up to 0, `8*level` capped at 1024 otherwise. */
  lemma NoPhrase(level: int, year: nat, slug: string -> string, rnd: Random, salts: nat -> Random)
    requires Fair(rnd) && (forall j: nat :: Fair(salts(j))) && KeepsText(slug)
    ensures |PasswordOf([], level, year, slug, rnd, salts)| == if level <= 0 then 1024 else if 8 * level > 1024 then 1024 else 8 * level
  {
    SaltLength(level, rnd, slug);
  }
}
