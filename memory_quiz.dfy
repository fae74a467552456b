/**
 * The memory quiz (src/app/apps/ex00/page.tsx): six words are drawn from a fixed pool to be
 * memorised, then five four-way questions ask which option was among them. `Math.random()`
 * is modelled as a stream `rand` of draws in [0, 1): the k-th call returns `rand(k)`, and
 * every helper takes the position of its first draw and reports how many it used.
 */
module MemoryQuiz {
  import opened Wrappers
  import opened Draws
  import Percent
  import Lists

  /** `WORD_POOL` */
  const WordPool: seq<string> := [
    "さくら", "ふじさん", "きつね", "たんぽぽ", "ほしぞら", "かみなり", "あさひ", "ゆきやま", "こおり", "かわら", "おにぎり", "えんぴつ",
    "しんかんせん", "とけい", "おさら", "はさみ", "とりい", "だるま", "すいか", "もみじ", "くじら", "うさぎ", "たけのこ", "こけし", "きんぎょ",
    "せんす", "かがみ", "つき", "ゆうひ", "あめのひ", "ひまわり", "たいこ", "ふうせん", "おりがみ", "こま", "しゃぼんだま", "はなび",
    "しらゆき", "こおろぎ", "あさがお", "やまのぼり", "わたあめ", "こいのぼり", "だんご", "よぞら", "すずめ", "つばめ", "ふくろう", "せみ",
    "くも", "かぜ", "なみ", "しお", "あさつゆ", "こだま", "もみじば", "いちょう", "まつぼっくり", "どんぐり", "れんげ", "すいせん", "きく",
    "うめ", "もも", "かき", "いちご", "りんご", "なし", "ぶどう", "みかん", "さくらんぼ", "かぼちゃ", "なす", "にんじん", "だいこん",
    "おちゃ", "きもの", "ゆかた", "まんじゅう", "せんべい", "おこのみやき", "おでん", "うどん", "そば", "にぎりずし", "てまり", "すだち",
    "あめ", "ゆき", "こゆき", "まつり", "おみこし", "しゃちほこ"
  ]

  predicate NoDup<T(==)>(s: seq<T>) {
    forall i, j | 0 <= i < j < |s| :: s[i] != s[j]
  }

  /** `arr.filter((x) => !exclude.has(x))` */
  function Without<T(==,!new)>(arr: seq<T>, exclude: set<T>): (r: seq<T>)
    ensures |r| <= |arr|
    ensures forall x :: x in r <==> x in arr && x !in exclude
  {
    Lists.Filter(arr, (x: T) => x !in exclude)
  }

  /** Filtering distributes over concatenation: the kept entries stay in their order. */
  lemma {:induction false} WithoutAppend<T(!new)>(a: seq<T>, b: seq<T>, exclude: set<T>)
    ensures Without(a + b, exclude) == Without(a, exclude) + Without(b, exclude)
  {
    Lists.FilterAppend(a, b, (x: T) => x !in exclude);
  }

  /** One entry is kept exactly when it is not excluded. */
  lemma WithoutOne<T(!new)>(x: T, exclude: set<T>)
    ensures Without([x], exclude) == if x in exclude then [] else [x]
  {
    assert [x][1..] == [];
  }

  lemma {:induction false} WithoutNothing<T(!new)>(arr: seq<T>)
    ensures Without(arr, {}) == arr
  {
    if arr != [] {
      WithoutNothing(arr[1..]);
      assert [arr[0]] + arr[1..] == arr;
    }
  }

  /** Splicing one position out of a duplicate-free sequence leaves a duplicate-free
      sequence that no longer holds the removed entry. */
  lemma Splice<T>(s: seq<T>, i: nat)
    requires NoDup(s) && i < |s|
    ensures NoDup(s[..i] + s[i + 1..]) && s[i] !in s[..i] + s[i + 1..]
  {
    var rest := s[..i] + s[i + 1..];
    forall a | 0 <= a < |rest|
      ensures rest[a] == s[if a < i then a else a + 1]
    {
    }
    forall a | 0 <= a < |rest|
      ensures rest[a] != s[i]
    {
      assert rest[a] == s[if a < i then a else a + 1];
    }
  }

  /** The tail of a duplicate-free sequence is duplicate-free and lacks the head. */
  lemma NoDupTail<T>(s: seq<T>)
    requires NoDup(s) && s != []
    ensures NoDup(s[1..]) && s[0] !in s[1..]
  {
    forall a | 0 <= a < |s| - 1
      ensures s[1..][a] != s[0]
    {
      assert s[1..][a] == s[a + 1];
    }
  }

  lemma {:induction false} WithoutNoDup<T(!new)>(arr: seq<T>, exclude: set<T>)
    requires NoDup(arr)
    ensures NoDup(Without(arr, exclude))
  {
    if arr != [] {
      NoDupTail(arr);
      WithoutNoDup(arr[1..], exclude);
      var rest := Without(arr[1..], exclude);
      if arr[0] !in exclude {
        assert Without(arr, exclude) == [arr[0]] + rest;
        ConsNoDup(arr[0], rest);
      } else {
        assert Without(arr, exclude) == rest;
      }
    }
  }

  /** Without duplicates, excluding a set removes at most that many entries. */
  lemma {:induction false} WithoutLength<T(!new)>(arr: seq<T>, exclude: set<T>)
    requires NoDup(arr)
    ensures |Without(arr, exclude)| >= |arr| - |exclude|
  {
    if arr != [] {
      var rest := arr[1..];
      NoDupTail(arr);
      if arr[0] in exclude {
        WithoutLength(rest, exclude - {arr[0]});
        WithoutSkips(rest, exclude, arr[0]);
        assert Without(arr, exclude) == Without(rest, exclude);
      } else {
        WithoutLength(rest, exclude);
        assert Without(arr, exclude) == [arr[0]] + Without(rest, exclude);
      }
    }
  }

  /** Excluding a value the sequence does not hold changes nothing. */
  lemma {:induction false} WithoutSkips<T(!new)>(arr: seq<T>, exclude: set<T>, x: T)
    requires x !in arr
    ensures Without(arr, exclude) == Without(arr, exclude - {x})
  {
    if arr != [] {
      assert arr[0] != x;
      assert x !in arr[1..];
      WithoutSkips(arr[1..], exclude, x);
    }
  }

  /** The set of a sequence's elements is no larger than the sequence. */
  lemma {:induction false} ElemsCard<T>(s: seq<T>)
    ensures |set x | x in s| <= |s|
  {
    if s != [] {
      ElemsCard(s[1..]);
      assert (set x | x in s) == {s[0]} + (set x | x in s[1..]);
    }
  }

  /** What the `while` loop of `sampleUnique` returns for a given pool: each round draws a
      position, takes that entry and splices it out of the pool. */
  function Sample<T>(pool: seq<T>, n: nat, rand: Rand, start: nat): seq<T>
    requires Uniform(rand)
    decreases |pool|
  {
    if n == 0 || pool == [] then []
    else
      var i := Index(rand(start), |pool|);
      [pool[i]] + Sample(pool[..i] + pool[i + 1..], n - 1, rand, start + 1)
  }

  function Min(a: nat, b: nat): nat {
    if a <= b then a else b
  }

  /** The sample has n entries, or the whole pool when it is smaller. */
  lemma {:induction false} SampleLength<T>(pool: seq<T>, n: nat, rand: Rand, start: nat)
    requires Uniform(rand)
    ensures |Sample(pool, n, rand, start)| == Min(n, |pool|)
    decreases |pool|
  {
    if n > 0 && pool != [] {
      var i := Index(rand(start), |pool|);
      SampleLength(pool[..i] + pool[i + 1..], n - 1, rand, start + 1);
    }
  }

  /** Each pool position is taken at most once: the sample is a sub-multiset of the pool. */
  lemma {:induction false} SampleFromPool<T>(pool: seq<T>, n: nat, rand: Rand, start: nat)
    requires Uniform(rand)
    ensures multiset(Sample(pool, n, rand, start)) <= multiset(pool)
    decreases |pool|
  {
    if n > 0 && pool != [] {
      var i := Index(rand(start), |pool|);
      var rest := pool[..i] + pool[i + 1..];
      SampleFromPool(rest, n - 1, rand, start + 1);
      SpliceMultiset(pool, i);
      var tail := Sample(rest, n - 1, rand, start + 1);
      assert Sample(pool, n, rand, start) == [pool[i]] + tail;
      ConsSubMultiset(pool[i], tail, rest);
    }
  }

  /** The same entry put in front of a sub-multiset and added to its super-multiset keeps
      them ordered. */
  lemma ConsSubMultiset<T>(x: T, a: seq<T>, b: seq<T>)
    requires multiset(a) <= multiset(b)
    ensures multiset([x] + a) <= multiset(b) + multiset{x}
  {
    assert multiset([x] + a) == multiset(a) + multiset{x};
  }

  /** Splicing out one position removes exactly that entry from the multiset. */
  lemma SpliceMultiset<T>(s: seq<T>, i: nat)
    requires i < |s|
    ensures multiset(s) == multiset(s[..i] + s[i + 1..]) + multiset{s[i]}
  {
    assert s == s[..i] + [s[i]] + s[i + 1..];
  }

  /** A pool without duplicates gives a sample without duplicates. */
  lemma {:induction false} SampleNoDup<T>(pool: seq<T>, n: nat, rand: Rand, start: nat)
    requires Uniform(rand) && NoDup(pool)
    ensures NoDup(Sample(pool, n, rand, start))
    decreases |pool|
  {
    if n > 0 && pool != [] {
      var i := Index(rand(start), |pool|);
      var rest := pool[..i] + pool[i + 1..];
      Splice(pool, i);
      SampleNoDup(rest, n - 1, rand, start + 1);
      NotSampled(pool[i], rest, n - 1, rand, start + 1);
      ConsNoDup(pool[i], Sample(rest, n - 1, rand, start + 1));
    }
  }

  /** A value missing from the pool is missing from the sample. */
  lemma NotSampled<T>(x: T, pool: seq<T>, n: nat, rand: Rand, start: nat)
    requires Uniform(rand) && x !in pool
    ensures x !in Sample(pool, n, rand, start)
  {
    SampleFromPool(pool, n, rand, start);
    assert multiset(pool)[x] == 0;
  }

  /** Putting a fresh value in front keeps a sequence free of duplicates. */
  lemma ConsNoDup<T>(x: T, tail: seq<T>)
    requires NoDup(tail) && x !in tail
    ensures NoDup([x] + tail)
  {
    var r := [x] + tail;
    forall a, b | 0 <= a < b < |r|
      ensures r[a] != r[b]
    {
      assert r[b] == tail[b - 1];
      if a > 0 {
        assert r[a] == tail[a - 1];
      }
    }
  }

  /** Every sampled entry is in the pool. */
  lemma SampleMembers<T(!new)>(pool: seq<T>, n: nat, rand: Rand, start: nat)
    requires Uniform(rand)
    ensures forall x :: x in Sample(pool, n, rand, start) ==> x in pool
  {
    SampleFromPool(pool, n, rand, start);
    forall x | x in Sample(pool, n, rand, start)
      ensures x in pool
    {
      assert x in multiset(Sample(pool, n, rand, start));
    }
  }

  /** One round of the loop: the drawn entry moves from the pool to the output. */
  lemma SampleStep<T>(out: seq<T>, pool: seq<T>, m: nat, rand: Rand, start: nat)
    requires Uniform(rand) && m > 0 && pool != []
    ensures var i := Index(rand(start), |pool|);
      out + Sample(pool, m, rand, start) == (out + [pool[i]]) + Sample(pool[..i] + pool[i + 1..], m - 1, rand, start + 1)
  {
  }

  /** `sampleUnique(arr, n, exclude)`, drawing from position `start` of the stream. */
  method SampleUnique<T(==,!new)>(arr: seq<T>, n: nat, exclude: set<T>, rand: Rand, start: nat)
    returns (out: seq<T>, used: nat)
    requires Uniform(rand)
    ensures out == Sample(Without(arr, exclude), n, rand, start)
    ensures used == |out|
  {
    var pool := Without(arr, exclude);
    out := TakeFrom(pool, n, rand, start);
    used := |out|;
  }

  /** The `while` loop of `sampleUnique` on the filtered pool. */
  method TakeFrom<T>(pool0: seq<T>, n: nat, rand: Rand, start: nat) returns (out: seq<T>)
    requires Uniform(rand)
    ensures out == Sample(pool0, n, rand, start)
  {
    var pool := pool0;
    out := [];
    // m is the number of entries still wanted and pos the next draw's position.
    var m, pos := n, start;
    while |out| < n && |pool| > 0
      invariant |out| + m == n
      invariant out + Sample(pool, m, rand, pos) == Sample(pool0, n, rand, start)
      decreases |pool|
    {
      var i := Index(rand(pos), |pool|);
      SampleStep(out, pool, m, rand, pos);
      out, pool, m, pos := out + [pool[i]], pool[..i] + pool[i + 1..], m - 1, pos + 1;
    }
    assert Sample(pool, m, rand, pos) == [];
    assert out + [] == out;
  }

  /** `shuffled(xs)`: a Fisher–Yates shuffle of a copy, drawing one position for each
      index from the last down to 1. The input, a value, is left as it was. */
  method Shuffled<T>(xs: seq<T>, rand: Rand, start: nat) returns (r: seq<T>, used: nat)
    requires Uniform(rand)
    ensures |r| == |xs| && multiset(r) == multiset(xs)
    ensures NoDup(xs) ==> NoDup(r)
    ensures used == if |xs| == 0 then 0 else |xs| - 1
  {
    var a := new T[|xs|](k requires 0 <= k < |xs| => xs[k]);
    assert a[..] == xs;
    var i := a.Length - 1;
    used := 0;
    while i > 0
      invariant -1 <= i < a.Length
      invariant a.Length > 0 ==> i >= 0
      invariant used == a.Length - 1 - i
      invariant multiset(a[..]) == multiset(xs)
      invariant NoDup(xs) ==> NoDup(a[..])
    {
      var j := Index(rand(start + used), i + 1);
      ghost var s := a[..];
      if NoDup(xs) {
        SwapNoDup(s, i, j);
      }
      a[i], a[j] := a[j], a[i];
      assert a[..] == s[i := s[j]][j := s[i]];
      i := i - 1;
      used := used + 1;
    }
    r := a[..];
  }

  /** Exchanging two positions keeps a sequence free of duplicates. */
  lemma SwapNoDup<T>(s: seq<T>, i: nat, j: nat)
    requires NoDup(s) && i < |s| && j < |s|
    ensures NoDup(s[i := s[j]][j := s[i]])
  {
    var r := s[i := s[j]][j := s[i]];
    forall p, q | 0 <= p < q < |r|
      ensures r[p] != r[q]
    {
      var sp := if p == j then i else if p == i then j else p;
      var sq := if q == j then i else if q == i then j else q;
      assert r[p] == s[sp] && r[q] == s[sq] && sp != sq;
      if sq < sp {
        assert s[sq] != s[sp];
      }
    }
  }

  /** `MEMO_SECONDS` */
  const MemoSeconds := 7

  datatype Phase = Idle | Memorize | Quiz | Result

  /** A question: the memorised word it asks for, undefined when no memory word was left to
      pick, and its options in display order. */
  datatype Question = Question(correct: Option<string>, options: seq<Option<string>>)

  /** `Math.round((correctCount / total) * 100)`, which is NaN when there are no questions. */
  datatype Mark = NaN | Points(value: int)

  /** A question built for memory set mem from the word pool: its correct word is among its
      options and in mem, every other option is a pool word outside mem, and the options are
      a permutation of the correct word followed by at most three such wrong words. */
  ghost predicate WellFormed(q: Question, mem: seq<string>, pool: seq<string>) {
    && 1 <= |q.options| <= 4
    && q.correct in q.options
    && (q.correct.Some? ==> q.correct.value in mem)
    && (forall k | 0 <= k < |q.options| ::
          q.options[k] == q.correct || (q.options[k].Some? && q.options[k].value in pool && q.options[k].value !in mem))
    && exists ws: seq<string> ::
         && |ws| <= 3 && (forall w | w in ws :: w in pool && w !in mem)
         && multiset(q.options) == multiset([q.correct] + Defined(ws))
  }

  function Defined(ws: seq<string>): (r: seq<Option<string>>)
    ensures |r| == |ws| && forall k | 0 <= k < |ws| :: r[k] == Some(ws[k])
  {
    seq(|ws|, k requires 0 <= k < |ws| => Some(ws[k]))
  }

  /** The correct word is never a wrong word: a defined one is in mem, the wrong words are
      not, and the wrong words are all defined. */
  lemma CorrectNotWrong(correct: Option<string>, wrongs: seq<string>, mem: seq<string>)
    requires correct.Some? ==> correct.value in mem
    requires forall w | w in wrongs :: w !in mem
    ensures correct !in Defined(wrongs)
  {
    forall k | 0 <= k < |wrongs|
      ensures Defined(wrongs)[k] != correct
    {
      assert wrongs[k] in wrongs;
    }
  }

  /** In a well-formed question the correct word appears exactly once among the options. */
  lemma CorrectOnce(q: Question, mem: seq<string>, pool: seq<string>)
    requires WellFormed(q, mem, pool)
    ensures multiset(q.options)[q.correct] == 1
  {
    var ws: seq<string> :| |ws| <= 3 && (forall w | w in ws :: w in pool && w !in mem)
                          && multiset(q.options) == multiset([q.correct] + Defined(ws));
    CorrectNotWrong(q.correct, ws, mem);
    assert multiset([q.correct] + Defined(ws)) == multiset([q.correct]) + multiset(Defined(ws));
  }

  /** Distinct wrong words and a correct word that is none of them give distinct options. */
  lemma OptionsNoDup(correct: Option<string>, wrongs: seq<string>, mem: seq<string>)
    requires NoDup(wrongs)
    requires correct.Some? ==> correct.value in mem
    requires forall w | w in wrongs :: w !in mem
    ensures NoDup([correct] + Defined(wrongs))
  {
    CorrectNotWrong(correct, wrongs, mem);
    ConsNoDup(correct, Defined(wrongs));
  }

  /** Shuffling the correct word with wrong words from outside mem gives a well-formed
      question. */
  lemma ShuffledQuestion(correct: Option<string>, wrongs: seq<string>, options: seq<Option<string>>, mem: seq<string>, pool: seq<string>)
    requires |wrongs| <= 3 && |options| == 1 + |wrongs|
    requires multiset(options) == multiset([correct] + Defined(wrongs))
    requires correct.Some? ==> correct.value in mem
    requires forall w | w in wrongs :: w in pool && w !in mem
    ensures WellFormed(Question(correct, options), mem, pool)
  {
    var all := [correct] + Defined(wrongs);
    assert all[0] == correct;
    assert correct in multiset(options);
    forall k | 0 <= k < |options|
      ensures options[k] == correct || (options[k].Some? && options[k].value in pool && options[k].value !in mem)
    {
      assert options[k] in multiset(all);
      var o := options[k];
      if o != correct {
        var m :| 0 <= m < |all| && all[m] == o;
        assert o == Some(wrongs[m - 1]);
        assert wrongs[m - 1] in wrongs;
      }
    }
    assert multiset(options) == multiset([correct] + Defined(wrongs));
  }

  /** With a duplicate-free pool, no more pool words are lost to the memory set than it has
      words. */
  lemma EnoughWrongs(mem: seq<string>, pool: seq<string>)
    requires NoDup(pool)
    ensures |Without(pool, set w | w in mem)| >= |pool| - |mem|
  {
    WithoutLength(pool, set w | w in mem);
    ElemsCard(mem);
  }

  /** `const [correct] = sampleUnique(mem, 1, usedCorrect)`: a memory word not used yet,
      undefined when none is left. */
  method PickCorrect(mem: seq<string>, usedCorrect: set<string>, rand: Rand, start: nat)
    returns (correct: Option<string>, used: nat)
    requires Uniform(rand)
    ensures correct.Some? ==> correct.value in mem && correct.value !in usedCorrect
    ensures NoDup(mem) && |mem| > |usedCorrect| ==> correct.Some?
  {
    var picked;
    picked, used := SampleUnique(mem, 1, usedCorrect, rand, start);
    SampleMembers(Without(mem, usedCorrect), 1, rand, start);
    SampleLength(Without(mem, usedCorrect), 1, rand, start);
    correct := if |picked| > 0 then Some(picked[0]) else None;
    assert correct.Some? ==> picked[0] in picked;
    if NoDup(mem) && |mem| > |usedCorrect| {
      WithoutLength(mem, usedCorrect);
    }
  }

  /** `sampleUnique(WORD_POOL, 3, new Set(mem))`: up to three pool words outside mem. */
  method PickWrongs(mem: seq<string>, pool: seq<string>, rand: Rand, start: nat) returns (wrongs: seq<string>, used: nat)
    requires Uniform(rand)
    ensures |wrongs| <= 3
    ensures forall w | w in wrongs :: w in pool && w !in mem
    ensures NoDup(pool) && |mem| + 3 <= |pool| ==> |wrongs| == 3
    ensures NoDup(pool) ==> NoDup(wrongs)
  {
    var memSet := set w | w in mem;
    wrongs, used := SampleUnique(pool, 3, memSet, rand, start);
    SampleMembers(Without(pool, memSet), 3, rand, start);
    SampleLength(Without(pool, memSet), 3, rand, start);
    if NoDup(pool) {
      EnoughWrongs(mem, pool);
      WithoutNoDup(pool, memSet);
      SampleNoDup(Without(pool, memSet), 3, rand, start);
    }
  }

  /** One round of the question loop of `startTest`: a correct word not used yet, three
      wrong words from outside the memory set, and the four shuffled together. */
  method MakeQuestion(mem: seq<string>, pool: seq<string>, usedCorrect: set<string>, rand: Rand, start: nat)
    returns (q: Question, used: nat)
    requires Uniform(rand)
    ensures WellFormed(q, mem, pool)
    ensures q.correct.Some? ==> q.correct.value !in usedCorrect
    ensures NoDup(mem) && |mem| > |usedCorrect| ==> q.correct.Some?
    ensures NoDup(pool) && |mem| + 3 <= |pool| ==> |q.options| == 4
    ensures NoDup(pool) ==> NoDup(q.options)
  {
    var correct, u1 := PickCorrect(mem, usedCorrect, rand, start);
    var wrongs, u2 := PickWrongs(mem, pool, rand, start + u1);
    if NoDup(pool) {
      OptionsNoDup(correct, wrongs, mem);
    }
    var options, u3 := Shuffled([correct] + Defined(wrongs), rand, start + u1 + u2);
    ShuffledQuestion(correct, wrongs, options, mem, pool);
    q := Question(correct, options);
    used := u1 + u2 + u3;
  }

  /** The words of the questions' defined correct answers. */
  function Corrects(qs: seq<Question>): set<string> {
    set k | 0 <= k < |qs| && qs[k].correct.Some? :: qs[k].correct.value
  }

  /** The answer recorded for question i; a position beyond the array reads as unanswered. */
  function Answer(answers: seq<Option<string>>, i: nat): Option<string> {
    if i < |answers| then answers[i] else None
  }

  /** Question i counts when an answer was given and it equals the correct word. */
  predicate Counts(qs: seq<Question>, answers: seq<Option<string>>, i: nat)
    requires i < |qs|
  {
    Answer(answers, i).Some? && Answer(answers, i) == qs[i].correct
  }

  /** `correctCount` after the first n questions. */
  function CorrectCount(qs: seq<Question>, answers: seq<Option<string>>, n: nat): (c: nat)
    requires n <= |qs|
    ensures c <= n
  {
    if n == 0 then 0 else CorrectCount(qs, answers, n - 1) + (if Counts(qs, answers, n - 1) then 1 else 0)
  }

  /** The count is the number of questions that count. */
  lemma {:induction false} CorrectCountIsCard(qs: seq<Question>, answers: seq<Option<string>>, n: nat)
    requires n <= |qs|
    ensures CorrectCount(qs, answers, n) == |set i | 0 <= i < n && Counts(qs, answers, i)|
  {
    if n > 0 {
      CorrectCountIsCard(qs, answers, n - 1);
      CountingSetStep(qs, answers, n);
    }
  }

  /** Question n - 1 joins the set of counting questions exactly when it counts. */
  lemma CountingSetStep(qs: seq<Question>, answers: seq<Option<string>>, n: nat)
    requires 0 < n <= |qs|
    ensures |set i | 0 <= i < n && Counts(qs, answers, i)|
      == |set i | 0 <= i < n - 1 && Counts(qs, answers, i)| + (if Counts(qs, answers, n - 1) then 1 else 0)
  {
    var prev := set i | 0 <= i < n - 1 && Counts(qs, answers, i);
    var cur := set i | 0 <= i < n && Counts(qs, answers, i);
    if Counts(qs, answers, n - 1) {
      assert cur == prev + {n - 1} && n - 1 !in prev;
    } else {
      assert cur == prev;
    }
  }

  /** How many questions have an answer. */
  function Answered(answers: seq<Option<string>>, n: nat): nat {
    if n == 0 then 0 else Answered(answers, n - 1) + (if Answer(answers, n - 1).Some? then 1 else 0)
  }

  /** Unanswered questions never count. */
  lemma {:induction false} OnlyAnsweredCount(qs: seq<Question>, answers: seq<Option<string>>, n: nat)
    requires n <= |qs|
    ensures CorrectCount(qs, answers, n) <= Answered(answers, n)
  {
    if n > 0 {
      OnlyAnsweredCount(qs, answers, n - 1);
    }
  }

  /** The score of `nextOrFinish`. */
  function Grade(qs: seq<Question>, answers: seq<Option<string>>): Mark {
    if |qs| == 0 then NaN else Points(Percent.RoundDiv(100 * CorrectCount(qs, answers, |qs|), |qs|))
  }

  /** The score is a percentage; all questions right gives 100 and none right gives 0. */
  lemma GradeBounds(qs: seq<Question>, answers: seq<Option<string>>)
    requires |qs| > 0
    ensures 0 <= Grade(qs, answers).value <= 100
    ensures CorrectCount(qs, answers, |qs|) == |qs| ==> Grade(qs, answers).value == 100
    ensures CorrectCount(qs, answers, |qs|) == 0 ==> Grade(qs, answers).value == 0
  {
    var c := CorrectCount(qs, answers, |qs|);
    Percent.RoundDivMono(0, 100 * c, |qs|);
    Percent.RoundDivMono(100 * c, 100 * |qs|, |qs|);
    Percent.RoundDivExact(0, |qs|);
    Percent.RoundDivExact(100, |qs|);
  }

  /** `sampleUnique(WORD_POOL, 6)`: the six words to memorise, or the whole pool when it
      is smaller. */
  method DrawMemorySet(pool: seq<string>, rand: Rand, start: nat) returns (mem: seq<string>, used: nat)
    requires Uniform(rand)
    ensures mem == Sample(pool, 6, rand, start) && |mem| == Min(6, |pool|)
    ensures forall w | w in mem :: w in pool
    ensures NoDup(pool) ==> NoDup(mem)
  {
    mem, used := SampleUnique(pool, 6, {}, rand, start);
    WithoutNothing(pool);
    SampleLength(pool, 6, rand, start);
    SampleMembers(pool, 6, rand, start);
    if NoDup(pool) {
      SampleNoDup(pool, 6, rand, start);
    }
  }

  /** Every question is well formed for mem and the pool. */
  ghost predicate AllWellFormed(qs: seq<Question>, mem: seq<string>, pool: seq<string>) {
    forall k | 0 <= k < |qs| :: WellFormed(qs[k], mem, pool)
  }

  /** No two questions share a defined correct word. */
  predicate DistinctCorrects(qs: seq<Question>) {
    forall a, b | 0 <= a < b < |qs| :: qs[a].correct.Some? ==> qs[a].correct != qs[b].correct
  }

  /** Every question has a defined correct word and four distinct options. */
  predicate AllComplete(qs: seq<Question>) {
    forall k | 0 <= k < |qs| :: qs[k].correct.Some? && |qs[k].options| == 4 && NoDup(qs[k].options)
  }

  /** The question loop of `startTest`: five well-formed questions whose defined correct
      words are distinct memory words. */
  method BuildQuestions(mem: seq<string>, pool: seq<string>, rand: Rand, start: nat) returns (qs: seq<Question>, used: nat)
    requires Uniform(rand)
    ensures |qs| == 5 && AllWellFormed(qs, mem, pool) && DistinctCorrects(qs)
    ensures NoDup(pool) && NoDup(mem) && |mem| == 6 && |pool| >= 9 ==> AllComplete(qs)
  {
    qs := [];
    used := 0;
    var usedCorrect: set<string> := {};
    var i := 0;
    while i < 5
      invariant i <= 5 && |qs| == i
      invariant usedCorrect == Corrects(qs) && |usedCorrect| <= i
      invariant AllWellFormed(qs, mem, pool) && DistinctCorrects(qs)
      invariant NoDup(pool) && NoDup(mem) && |mem| == 6 && |pool| >= 9 ==> AllComplete(qs)
    {
      var q, n := MakeQuestion(mem, pool, usedCorrect, rand, start + used);
      used := used + n;
      CorrectsStep(qs, q, usedCorrect, mem, pool);
      qs := qs + [q];
      usedCorrect := if q.correct.Some? then usedCorrect + {q.correct.value} else usedCorrect;
      i := i + 1;
    }
  }

  /** Adding a well-formed question whose correct word is new records that word and keeps
      the questions well formed, their correct words distinct and, for a complete question,
      all of them complete. */
  lemma CorrectsStep(qs: seq<Question>, q: Question, usedCorrect: set<string>, mem: seq<string>, pool: seq<string>)
    requires usedCorrect == Corrects(qs)
    requires AllWellFormed(qs, mem, pool) && DistinctCorrects(qs) && WellFormed(q, mem, pool)
    requires q.correct.Some? ==> q.correct.value !in usedCorrect
    ensures Corrects(qs + [q]) == if q.correct.Some? then usedCorrect + {q.correct.value} else usedCorrect
    ensures AllWellFormed(qs + [q], mem, pool) && DistinctCorrects(qs + [q])
    ensures AllComplete(qs) && q.correct.Some? && |q.options| == 4 && NoDup(q.options) ==> AllComplete(qs + [q])
  {
    AllWellFormedStep(qs, q, mem, pool);
    AllCompleteStep(qs, q);
    CorrectsDistinctStep(qs, q, usedCorrect);
  }

  lemma CorrectsDistinctStep(qs: seq<Question>, q: Question, usedCorrect: set<string>)
    requires usedCorrect == Corrects(qs) && DistinctCorrects(qs)
    requires q.correct.Some? ==> q.correct.value !in usedCorrect
    ensures Corrects(qs + [q]) == if q.correct.Some? then usedCorrect + {q.correct.value} else usedCorrect
    ensures DistinctCorrects(qs + [q])
  {
    var r := qs + [q];
    assert forall k | 0 <= k < |qs| :: r[k] == qs[k];
    assert r[|qs|] == q;
    if q.correct.Some? {
      assert q.correct.value in Corrects(r);
    }
    forall a | 0 <= a < |qs| && qs[a].correct.Some?
      ensures qs[a].correct != q.correct
    {
      assert qs[a].correct.value in Corrects(qs);
    }
  }

  lemma AllWellFormedStep(qs: seq<Question>, q: Question, mem: seq<string>, pool: seq<string>)
    requires AllWellFormed(qs, mem, pool) && WellFormed(q, mem, pool)
    ensures AllWellFormed(qs + [q], mem, pool)
  {
    var r := qs + [q];
    forall k | 0 <= k < |r|
      ensures WellFormed(r[k], mem, pool)
    {
      if k < |qs| {
        assert r[k] == qs[k];
      }
    }
  }

  lemma AllCompleteStep(qs: seq<Question>, q: Question)
    ensures AllComplete(qs) && q.correct.Some? && |q.options| == 4 && NoDup(q.options) ==> AllComplete(qs + [q])
  {
    var r := qs + [q];
    assert forall k | 0 <= k < |qs| :: r[k] == qs[k];
    assert r[|qs|] == q;
  }

  class MemoryGame {
    var phase: Phase
    var memorySet: seq<string>
    var questions: seq<Question>
    var answers: seq<Option<string>>
    var qIndex: nat
    var score: Option<Mark>
    var remain: int
    /** The words the game draws from, `WORD_POOL`. */
    const pool: seq<string>

    constructor ()
      ensures pool == WordPool && |pool| == 93
      ensures phase == Idle && memorySet == [] && questions == [] && answers == []
      ensures qIndex == 0 && score == None && remain == MemoSeconds
    {
      pool := WordPool;
      phase, memorySet, questions, answers := Idle, [], [], [];
      qIndex, score, remain := 0, None, MemoSeconds;
    }

    /** `startTest()`, drawing from position `start` of the stream; `used` is the number of
        draws it took. */
    method StartTest(rand: Rand, start: nat) returns (used: nat)
      requires Uniform(rand)
      modifies this
      ensures memorySet == Sample(pool, 6, rand, start) && |memorySet| == Min(6, |pool|)
      ensures forall w | w in memorySet :: w in pool
      ensures |questions| == 5 && answers == [None, None, None, None, None]
      ensures AllWellFormed(questions, memorySet, pool) && DistinctCorrects(questions)
      ensures NoDup(pool) ==> NoDup(memorySet)
      ensures NoDup(pool) && |pool| >= 9 ==> AllComplete(questions)
      ensures phase == Memorize && remain == MemoSeconds
      ensures qIndex == old(qIndex) && score == old(score)
    {
      var mem, u := DrawMemorySet(pool, rand, start);
      var qs, n := BuildQuestions(mem, pool, rand, start + u);
      used := u + n;
      memorySet := mem;
      questions := qs;
      answers := [None, None, None, None, None];
      phase := Memorize;
      remain := MemoSeconds;
    }

    /** One tick of the memorise countdown: at one second or less the quiz begins and the
        count stops at 0, otherwise one second is taken off. */
    method Tick()
      modifies this
      ensures old(remain) <= 1 ==> remain == 0 && phase == Quiz
      ensures old(remain) > 1 ==> remain == old(remain) - 1 && phase == old(phase)
      ensures memorySet == old(memorySet) && questions == old(questions) && answers == old(answers)
      ensures qIndex == old(qIndex) && score == old(score)
    {
      if remain <= 1 {
        phase := Quiz;
        remain := 0;
      } else {
        remain := remain - 1;
      }
    }

    /** `choose(option)`: only the current question's answer changes. A JavaScript array
        written beyond its end grows, with unanswered holes in between. */
    method Choose(option: string)
      modifies this
      ensures |answers| == if qIndex < |old(answers)| then |old(answers)| else qIndex + 1
      ensures answers[qIndex] == Some(option)
      ensures forall k | 0 <= k < |old(answers)| && k != qIndex :: answers[k] == old(answers)[k]
      ensures forall k | |old(answers)| <= k < qIndex :: answers[k] == None
      ensures phase == old(phase) && memorySet == old(memorySet) && questions == old(questions)
      ensures qIndex == old(qIndex) && score == old(score) && remain == old(remain)
    {
      if qIndex < |answers| {
        answers := answers[qIndex := Some(option)];
      } else {
        answers := answers + seq(qIndex - |answers|, _ => None) + [Some(option)];
      }
    }

    /** `nextOrFinish()`: on to the next question, or, after the last one, the score. */
    method NextOrFinish()
      modifies this
      ensures old(qIndex) < |questions| - 1 ==>
                qIndex == old(qIndex) + 1 && phase == old(phase) && score == old(score)
      ensures old(qIndex) >= |questions| - 1 ==>
                qIndex == old(qIndex) && phase == Result && score == Some(Grade(questions, answers))
      ensures memorySet == old(memorySet) && questions == old(questions) && answers == old(answers)
      ensures remain == old(remain)
    {
      if qIndex < |questions| - 1 {
        qIndex := qIndex + 1;
      } else {
        score := Some(Grade(questions, answers));
        phase := Result;
      }
    }

    /** `restart()` */
    method Restart()
      modifies this
      ensures phase == Idle && memorySet == [] && questions == [] && answers == []
      ensures qIndex == 0 && score == None && remain == MemoSeconds
    {
      phase, memorySet, questions, answers := Idle, [], [], [];
      qIndex, score, remain := 0, None, MemoSeconds;
    }
  }
}
