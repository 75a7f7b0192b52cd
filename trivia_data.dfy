/**
 * The built-in question bank, the balanced random selection from it, and
 * the map from a quiz score to the "crypto entry year" shown with the
 * results.
 */
module TriviaData {
  import opened Questions
  import opened Slots
  import opened Shuffling
  import opened Text

  /** The bank's own category list, in selection order. */
  const LegacyCategories: seq<string> := ["development", "memes-nfts", "scams", "incidents"]

  /** Entries per category in the bank. */
  const PerCategory: nat := 5

  // The bank's entries, in the order they are listed.

  const Dev1: Question :=
    Question("dev-1", "development",
      "Which consensus mechanism does Ethereum use after 'The Merge'?",
      ["Proof of Work", "Proof of Stake", "Proof of Authority", "Proof of Space"],
      1, 2022)
  const Dev2: Question :=
    Question("dev-2", "development",
      "What programming language is primarily used for Ethereum smart contracts?",
      ["JavaScript", "Python", "Solidity", "Rust"],
      2, 2017)
  const Dev3: Question :=
    Question("dev-3", "development",
      "What is ERC-721?",
      ["A fungible token standard", "A non-fungible token standard", "A governance standard", "A staking standard"],
      1, 2018)
  const Dev4: Question :=
    Question("dev-4", "development",
      "What is a Layer 2 solution?",
      ["A new blockchain", "A scaling solution built on top of an existing blockchain", "A consensus mechanism", "A type of wallet"],
      1, 2020)
  const Dev5: Question :=
    Question("dev-5", "development",
      "What is the primary purpose of Farcaster?",
      ["A decentralized exchange", "A decentralized social protocol", "A layer 2 solution", "A stablecoin protocol"],
      1, 2021)
  const Meme1: Question :=
    Question("meme-1", "memes-nfts",
      "Which NFT collection features pixelated characters and became one of the first major NFT phenomena?",
      ["Bored Ape Yacht Club", "CryptoPunks", "Azuki", "Doodles"],
      1, 2017)
  const Meme2: Question :=
    Question("meme-2", "memes-nfts",
      "What does 'WAGMI' stand for in crypto culture?",
      ["We Are Getting Money Instantly", "We're All Gonna Make It", "When Art Generates Massive Income", "Wealth And Growth Metrics Index"],
      1, 2021)
  const Meme3: Question :=
    Question("meme-3", "memes-nfts",
      "What is 'Diamond Hands' referring to?",
      ["A type of NFT", "Holding assets despite volatility", "A crypto wallet", "A mining technique"],
      1, 2020)
  const Meme4: Question :=
    Question("meme-4", "memes-nfts",
      "Which meme coin was initially created as a joke but gained significant value?",
      ["Bitcoin", "Ethereum", "Dogecoin", "USD Coin"],
      2, 2013)
  const Meme5: Question :=
    Question("meme-5", "memes-nfts",
      "What does 'HODL' originally come from?",
      ["Hold On for Dear Life", "A misspelling of 'HOLD'", "High-Octane Decentralized Ledger", "Highly Optimized Digital Liquidity"],
      1, 2013)
  const Scam1: Question :=
    Question("scam-1", "scams",
      "What is a 'rug pull' in crypto?",
      ["A hardware wallet malfunction", "Developers abandoning a project after taking investors' money", "A type of mining attack", "A market manipulation technique"],
      1, 2020)
  const Scam2: Question :=
    Question("scam-2", "scams",
      "What was BitConnect primarily known for?",
      ["Being the first DEX", "A legitimate lending platform", "A Ponzi scheme", "A hardware wallet"],
      2, 2018)
  const Scam3: Question :=
    Question("scam-3", "scams",
      "What is 'phishing' in the context of crypto?",
      ["Mining for small amounts of crypto", "Attempting to steal private keys through deception", "A consensus mechanism", "A type of airdrop"],
      1, 2016)
  const Scam4: Question :=
    Question("scam-4", "scams",
      "What is a 'honeypot' in crypto?",
      ["A contract designed to trap funds", "A high-yield staking pool", "A type of hardware wallet", "A reward mechanism"],
      0, 2019)
  const Scam5: Question :=
    Question("scam-5", "scams",
      "What type of scam involves impersonating celebrities to promote fake giveaways?",
      ["Rug pull", "Pump and dump", "Social engineering", "Celebrity endorsement scam"],
      3, 2018)
  const Incident1: Question :=
    Question("incident-1", "incidents",
      "What was 'The DAO' hack?",
      ["A social media account breach", "An exchange hack", "An exploit of a smart contract vulnerability", "A 51% attack"],
      2, 2016)
  const Incident2: Question :=
    Question("incident-2", "incidents",
      "Which exchange filed for bankruptcy in 2022 after misusing customer funds?",
      ["Binance", "Coinbase", "FTX", "Kraken"],
      2, 2022)
  const Incident3: Question :=
    Question("incident-3", "incidents",
      "What was the name of the Bitcoin exchange that was hacked in 2014, leading to its bankruptcy?",
      ["Mt. Gox", "Binance", "Coinbase", "Kraken"],
      0, 2014)
  const Incident4: Question :=
    Question("incident-4", "incidents",
      "What major event caused Bitcoin to crash in May 2021?",
      ["US regulation", "China's mining ban", "Elon Musk's tweets", "DeFi collapse"],
      1, 2021)
  const Incident5: Question :=
    Question("incident-5", "incidents",
      "What was the Terra/Luna collapse of 2022?",
      ["A mining pool shutdown", "A stablecoin losing its peg and collapsing", "An exchange hack", "A 51% attack"],
      1, 2022)

  /** The development block of the bank, in listing order. */
  const Development: seq<Question> := [Dev1, Dev2, Dev3, Dev4, Dev5]
  /** The memes block of the bank, in listing order. */
  const Memes: seq<Question> := [Meme1, Meme2, Meme3, Meme4, Meme5]
  /** The scams block of the bank, in listing order. */
  const Scams: seq<Question> := [Scam1, Scam2, Scam3, Scam4, Scam5]
  /** The incidents block of the bank, in listing order. */
  const Incidents: seq<Question> := [Incident1, Incident2, Incident3, Incident4, Incident5]

  /** The twenty built-in questions, five per category, grouped by category in selection order. */
  const Bank: seq<Question> := Development + Memes + Scams + Incidents

  /**
   * A question in place r of category block k: it conforms, belongs to
   * category k, and its id starts with that category's letter and ends in
   * the digit r + 1.
   */
  predicate EntryShape(q: Question, k: nat, r: nat)
    requires k < |LegacyCategories| && r < PerCategory
  {
    Conforms(q, LegacyCategories) &&
    q.category == LegacyCategories[k] &&
    |q.id| > 0 && q.id[0] == "dmsi"[k] &&
    q.id[|q.id| - 1] == Digit(r + 1)
  }

  /** Entry i of a bank laid out like the built-in one is in place i % 5 of block i / 5. */
  predicate EntryFacts(bank: seq<Question>, i: nat)
    requires i < |bank| && i < 4 * PerCategory
  {
    EntryShape(bank[i], i / PerCategory, i % PerCategory)
  }

  /** Twenty entries, laid out in category blocks of five. */
  predicate LaidOut(bank: seq<Question>) {
    |bank| == 4 * PerCategory && forall i :: 0 <= i < |bank| ==> EntryFacts(bank, i)
  }

  /** Block k of five entries, entry r in place r of block k. */
  predicate BlockShape(block: seq<Question>, k: nat)
    requires k < |LegacyCategories|
  {
    |block| == PerCategory && forall r :: 0 <= r < |block| ==> EntryShape(block[r], k, r)
  }

  lemma DevelopmentShape()
    ensures BlockShape(Development, 0)
  {
    assert EntryShape(Dev1, 0, 0);
    assert EntryShape(Dev2, 0, 1);
    assert EntryShape(Dev3, 0, 2);
    assert EntryShape(Dev4, 0, 3);
    assert EntryShape(Dev5, 0, 4);
  }

  lemma MemesShape()
    ensures BlockShape(Memes, 1)
  {
    assert EntryShape(Meme1, 1, 0);
    assert EntryShape(Meme2, 1, 1);
    assert EntryShape(Meme3, 1, 2);
    assert EntryShape(Meme4, 1, 3);
    assert EntryShape(Meme5, 1, 4);
  }

  lemma ScamsShape()
    ensures BlockShape(Scams, 2)
  {
    assert EntryShape(Scam1, 2, 0);
    assert EntryShape(Scam2, 2, 1);
    assert EntryShape(Scam3, 2, 2);
    assert EntryShape(Scam4, 2, 3);
    assert EntryShape(Scam5, 2, 4);
  }

  lemma IncidentsShape()
    ensures BlockShape(Incidents, 3)
  {
    assert EntryShape(Incident1, 3, 0);
    assert EntryShape(Incident2, 3, 1);
    assert EntryShape(Incident3, 3, 2);
    assert EntryShape(Incident4, 3, 3);
    assert EntryShape(Incident5, 3, 4);
  }

  /** The built-in bank is laid out in category blocks of five. */
  lemma BankLaidOut()
    ensures LaidOut(Bank)
  {
    DevelopmentShape();
    MemesShape();
    ScamsShape();
    IncidentsShape();
    forall i | 0 <= i < |Bank| ensures EntryFacts(Bank, i) {
      if i < 5 {
        assert Bank[i] == Development[i];
      } else if i < 10 {
        assert Bank[i] == Memes[i - 5] && i / 5 == 1 && i % 5 == i - 5;
      } else if i < 15 {
        assert Bank[i] == Scams[i - 10] && i / 5 == 2 && i % 5 == i - 10;
      } else {
        assert Bank[i] == Incidents[i - 15] && i / 5 == 3 && i % 5 == i - 15;
      }
    }
  }

  /** The built-in bank's invariants: twenty well-formed entries with distinct ids, five in each category. */
  lemma BankWellFormed()
    ensures |Bank| == 4 * PerCategory
    ensures forall q :: q in Bank ==> Conforms(q, LegacyCategories)
    ensures DistinctIds(Bank)
    ensures forall k :: 0 <= k < |LegacyCategories| ==> |OfCategory(Bank, LegacyCategories[k])| == PerCategory
  {
    BankLaidOut();
    LaidOutWellFormed(Bank);
  }

  /** A laid-out bank has well-formed entries with distinct ids, five in each category. */
  lemma LaidOutWellFormed(bank: seq<Question>)
    requires LaidOut(bank)
    ensures forall q :: q in bank ==> Conforms(q, LegacyCategories)
    ensures DistinctIds(bank)
    ensures forall k :: 0 <= k < |LegacyCategories| ==> |OfCategory(bank, LegacyCategories[k])| == PerCategory
  {
    forall q | q in bank ensures Conforms(q, LegacyCategories) {
      var i :| 0 <= i < |bank| && bank[i] == q;
      assert EntryFacts(bank, i);
    }
    forall a, b | 0 <= a < b < |bank| ensures bank[a].id != bank[b].id {
      var x, y := bank[a].id, bank[b].id;
      assert EntryFacts(bank, a) && EntryFacts(bank, b);
      if a / PerCategory == b / PerCategory {
        assert x[|x| - 1] != y[|y| - 1];
      } else {
        assert x[0] != y[0];
      }
    }
    forall k | 0 <= k < |LegacyCategories| ensures |OfCategory(bank, LegacyCategories[k])| == PerCategory {
      LaidOutByCategory(bank, k);
    }
  }

  /** The entries of one category, in bank order (`filter`). */
  function OfCategory(qs: seq<Question>, category: string): (r: seq<Question>)
    ensures |r| <= |qs|
    ensures forall i :: 0 <= i < |r| ==> r[i].category == category
  {
    if qs == [] then []
    else (if qs[0].category == category then [qs[0]] else []) + OfCategory(qs[1..], category)
  }

  lemma {:induction false} OfCategoryAppend(a: seq<Question>, b: seq<Question>, category: string)
    ensures OfCategory(a + b, category) == OfCategory(a, category) + OfCategory(b, category)
  {
    if a == [] {
      assert a + b == b;
    } else {
      assert (a + b)[1..] == a[1..] + b;
      OfCategoryAppend(a[1..], b, category);
    }
  }

  /** Filtering keeps a run of entries that all have the category, and drops a run where none has it. */
  lemma {:induction false} OfCategoryUniform(s: seq<Question>, c: string, category: string)
    requires forall i :: 0 <= i < |s| ==> s[i].category == c
    ensures OfCategory(s, category) == if c == category then s else []
  {
    if s != [] {
      OfCategoryUniform(s[1..], c, category);
    }
  }

  /** Block k of a laid-out bank holds the entries of category k. */
  lemma LaidOutBlock(bank: seq<Question>, k: nat)
    requires LaidOut(bank) && k < |LegacyCategories|
    ensures forall i :: PerCategory * k <= i < PerCategory * (k + 1) ==> bank[i].category == LegacyCategories[k]
  {
    forall i | PerCategory * k <= i < PerCategory * (k + 1) ensures bank[i].category == LegacyCategories[k] {
      assert i / PerCategory == k;
      assert EntryFacts(bank, i);
    }
  }

  /** The four categories are pairwise different (their first letters differ). */
  lemma LegacyDistinct(j: nat, k: nat)
    requires j < |LegacyCategories| && k < |LegacyCategories| && j != k
    ensures LegacyCategories[j] != LegacyCategories[k]
  {
    assert LegacyCategories[j][0] == "dmsi"[j];
    assert LegacyCategories[k][0] == "dmsi"[k];
  }

  /** Block j of the bank: the five entries of category j in a laid-out bank. */
  function Block(bank: seq<Question>, j: nat): (b: seq<Question>)
    requires PerCategory * (j + 1) <= |bank|
    ensures |b| == PerCategory
  {
    bank[PerCategory * j..PerCategory * (j + 1)]
  }

  /** Filtering block j by category k keeps the whole block when j == k and nothing otherwise. */
  lemma BlockFilter(bank: seq<Question>, j: nat, k: nat)
    requires LaidOut(bank) && j < |LegacyCategories| && k < |LegacyCategories|
    ensures OfCategory(Block(bank, j), LegacyCategories[k]) == if j == k then Block(bank, j) else []
  {
    var b := Block(bank, j);
    LaidOutBlock(bank, j);
    forall i | 0 <= i < |b| ensures b[i].category == LegacyCategories[j] {
      assert b[i] == bank[PerCategory * j + i];
    }
    OfCategoryUniform(b, LegacyCategories[j], LegacyCategories[k]);
    if j != k {
      LegacyDistinct(j, k);
    }
  }

  /** Filtering a bank of four blocks filters each block. */
  lemma FilterBlocks(bank: seq<Question>, c: string)
    requires |bank| == 4 * PerCategory
    ensures OfCategory(bank, c) ==
      OfCategory(Block(bank, 0), c) + OfCategory(Block(bank, 1), c) +
      OfCategory(Block(bank, 2), c) + OfCategory(Block(bank, 3), c)
  {
    var b0, b1, b2, b3 := Block(bank, 0), Block(bank, 1), Block(bank, 2), Block(bank, 3);
    assert bank == b0 + b1 + b2 + b3;
    OfCategoryAppend(b0 + b1 + b2, b3, c);
    OfCategoryAppend(b0 + b1, b2, c);
    OfCategoryAppend(b0, b1, c);
  }

  /** Of four parts of which only part k is non-empty, the concatenation is part k. */
  lemma PickPart(f0: seq<Question>, f1: seq<Question>, f2: seq<Question>, f3: seq<Question>, b: seq<Question>, k: nat)
    requires k < 4
    requires f0 == (if k == 0 then b else []) && f1 == (if k == 1 then b else [])
    requires f2 == (if k == 2 then b else []) && f3 == (if k == 3 then b else [])
    ensures f0 + f1 + f2 + f3 == b
  {
    if k == 0 {
      assert f0 + f1 + f2 + f3 == f0;
    } else if k == 1 {
      assert f0 + f1 + f2 + f3 == f1;
    } else if k == 2 {
      assert f0 + f1 + f2 + f3 == f2;
    } else {
      assert f0 + f1 + f2 + f3 == f3;
    }
  }

  /** Filtering a laid-out bank by category k gives exactly block k. */
  lemma LaidOutByCategory(bank: seq<Question>, k: nat)
    requires LaidOut(bank) && k < |LegacyCategories|
    ensures OfCategory(bank, LegacyCategories[k]) == bank[PerCategory * k..PerCategory * (k + 1)]
  {
    var c := LegacyCategories[k];
    FilterBlocks(bank, c);
    var f0, f1, f2, f3 := OfCategory(Block(bank, 0), c), OfCategory(Block(bank, 1), c),
                          OfCategory(Block(bank, 2), c), OfCategory(Block(bank, 3), c);
    assert f0 == (if k == 0 then Block(bank, k) else []) by { BlockFilter(bank, 0, k); }
    assert f1 == (if k == 1 then Block(bank, k) else []) by { BlockFilter(bank, 1, k); }
    assert f2 == (if k == 2 then Block(bank, k) else []) by { BlockFilter(bank, 2, k); }
    assert f3 == (if k == 3 then Block(bank, k) else []) by { BlockFilter(bank, 3, k); }
    PickPart(f0, f1, f2, f3, Block(bank, k), k);
  }

  // ---------------------------------------------------------------- selection

  /** How many entries the first k categories contribute: each gives its share, at most the five it has. */
  function Taken(count: nat, k: nat): nat
    requires k <= |LegacyCategories|
  {
    if k == 0 then 0 else Taken(count, k - 1) + Min(PerCategory, Share(count, k - 1))
  }

  /** Up to twenty, every requested question is delivered. */
  lemma TakenAll(count: nat)
    requires count <= 4 * PerCategory
    ensures Taken(count, 4) == count
  {
    ShareSum(count);
    assert Taken(count, 1) == Share(count, 0);
    assert Taken(count, 2) == Share(count, 0) + Share(count, 1);
    assert Taken(count, 3) == Share(count, 0) + Share(count, 1) + Share(count, 2);
  }

  /** The selection is laid out by category: first category 0's entries, then category 1's, and so on. */
  predicate Balanced(selection: seq<Question>, count: nat, k: nat)
    requires k <= |LegacyCategories|
  {
    |selection| == Taken(count, k) &&
    forall i, j :: 0 <= i < k && Taken(count, i) <= j < Taken(count, i + 1) && j < |selection| ==>
      selection[j].category == LegacyCategories[i]
  }

  /** Appending category k's part keeps the layout. */
  lemma ExtendBalanced(selection: seq<Question>, part: seq<Question>, count: nat, k: nat)
    requires k < |LegacyCategories| && Balanced(selection, count, k)
    requires |part| == Min(PerCategory, Share(count, k))
    requires forall j :: 0 <= j < |part| ==> part[j].category == LegacyCategories[k]
    ensures Balanced(selection + part, count, k + 1)
  {
    var s := selection + part;
    forall i, j | 0 <= i < k + 1 && Taken(count, i) <= j < Taken(count, i + 1) && j < |s|
      ensures s[j].category == LegacyCategories[i]
    {
      if i < k {
        TakenMonotone(count, i + 1, k);
        assert s[j] == selection[j];
      } else {
        assert s[j] == part[j - |selection|];
      }
    }
  }

  lemma {:induction false} TakenMonotone(count: nat, i: nat, k: nat)
    requires i <= k <= |LegacyCategories|
    ensures Taken(count, i) <= Taken(count, k)
    decreases k - i
  {
    if i < k {
      TakenMonotone(count, i + 1, k);
    }
  }

  /**
   * `getRandomQuestions`: category i contributes min(5, its share) entries
   * of a shuffled copy of its bank block, and the concatenation is shuffled
   * again. The result has exactly `count` distinct bank entries whenever
   * `count` is at most twenty.
   */
  method GetRandomQuestions(count: nat) returns (r: seq<Question>, ghost selection: seq<Question>)
    ensures Balanced(selection, count, 4)
    ensures multiset(r) == multiset(selection)
    ensures |r| == Taken(count, 4)
    ensures count <= |Bank| ==> |r| == count
    ensures forall q :: q in r ==> q in Bank
    ensures DistinctIds(r)
  {
    BankLaidOut();
    r, selection := SelectFrom(Bank, count);
  }

  /** The selection from any bank laid out like the built-in one. */
  method SelectFrom(bank: seq<Question>, count: nat) returns (r: seq<Question>, ghost selection: seq<Question>)
    requires LaidOut(bank)
    ensures Balanced(selection, count, 4)
    ensures multiset(selection) <= multiset(bank)
    ensures multiset(r) == multiset(selection)
    ensures |r| == Taken(count, 4)
    ensures count <= |bank| ==> |r| == count
    ensures forall q :: q in r ==> q in bank
    ensures DistinctIds(r)
  {
    var selected := SelectByCategory(bank, count);
    selection := selected;
    r := Shuffle(selected);
    if count <= |bank| {
      TakenAll(count);
    }
    LaidOutWellFormed(bank);
    SubBatchDistinctIds(r, bank);
    forall q | q in r ensures q in bank {
      assert q in multiset(r);
    }
  }

  /** The `forEach` over the categories: each appends its part of a shuffled copy of its block. */
  method SelectByCategory(bank: seq<Question>, count: nat) returns (selected: seq<Question>)
    requires LaidOut(bank)
    ensures Balanced(selected, count, 4)
    ensures multiset(selected) <= multiset(bank)
  {
    var perCategory := count / |LegacyCategories|;
    var remainder := count % |LegacyCategories|;
    selected := [];
    for i := 0 to |LegacyCategories|
      invariant Balanced(selected, count, i)
      invariant multiset(selected) <= multiset(bank[..PerCategory * i])
    {
      var categoryQuestions := OfCategory(bank, LegacyCategories[i]);
      var categoryCount := if i < remainder then perCategory + 1 else perCategory;
      assert categoryCount == Share(count, i);
      var shuffled := Shuffle(categoryQuestions);
      var part := if categoryCount <= |shuffled| then shuffled[..categoryCount] else shuffled;
      SelectStep(bank, selected, shuffled, part, count, i);
      selected := selected + part;
    }
    assert bank[..PerCategory * 4] == bank;
  }

  /** One round of the selection loop keeps its invariants. */
  lemma SelectStep(bank: seq<Question>, selected: seq<Question>, shuffled: seq<Question>, part: seq<Question>,
                   count: nat, i: nat)
    requires LaidOut(bank) && i < |LegacyCategories|
    requires Balanced(selected, count, i)
    requires multiset(selected) <= multiset(bank[..PerCategory * i])
    requires multiset(shuffled) == multiset(OfCategory(bank, LegacyCategories[i]))
    requires |shuffled| == |OfCategory(bank, LegacyCategories[i])|
    requires part == if Share(count, i) <= |shuffled| then shuffled[..Share(count, i)] else shuffled
    ensures Balanced(selected + part, count, i + 1)
    ensures multiset(selected + part) <= multiset(bank[..PerCategory * (i + 1)])
  {
    var block := bank[PerCategory * i..PerCategory * (i + 1)];
    assert multiset(part) <= multiset(block) && |part| == Min(PerCategory, Share(count, i)) by {
      LaidOutByCategory(bank, i);
      PrefixSubMultiset(shuffled, |part|);
      assert part == shuffled[..|part|];
    }
    assert Balanced(selected + part, count, i + 1) by {
      forall j | 0 <= j < |part| ensures part[j].category == LegacyCategories[i] {
        assert part[j] in multiset(block);
        LaidOutBlock(bank, i);
      }
      ExtendBalanced(selected, part, count, i);
    }
    assert multiset(selected + part) <= multiset(bank[..PerCategory * (i + 1)]) by {
      assert bank[..PerCategory * (i + 1)] == bank[..PerCategory * i] + block;
      assert multiset(selected + part) == multiset(selected) + multiset(part);
    }
  }

  // ---------------------------------------------------------------- entry year

  /**
   * `calculateCryptoEntryYear`: the share of correct answers, compared in
   * steps of ten per cent, mapped to a year; a higher score maps to an
   * earlier year. For a quiz with no questions the share is score / 0:
   * infinite (2013) for a positive score and undefined (2023) for zero.
   */
  function EntryYear(score: nat, total: nat): (year: int)
    ensures year in {2013, 2015, 2017, 2019, 2020, 2021, 2022, 2023}
    ensures total > 0 ==> (year == 2013 <==> score * 100 >= 90 * total)
    ensures total > 0 ==> (year == 2023 <==> score * 100 < 30 * total)
  {
    if total == 0 then (if score > 0 then 2013 else 2023)
    else if score * 100 >= 90 * total then 2013
    else if score * 100 >= 80 * total then 2015
    else if score * 100 >= 70 * total then 2017
    else if score * 100 >= 60 * total then 2019
    else if score * 100 >= 50 * total then 2020
    else if score * 100 >= 40 * total then 2021
    else if score * 100 >= 30 * total then 2022
    else 2023
  }

  /** For a fixed number of questions, a better score never maps to a later year. */
  lemma EntryYearMonotone(low: nat, high: nat, total: nat)
    requires low <= high
    ensures EntryYear(high, total) <= EntryYear(low, total)
  {
    assert low * 100 <= high * 100;
  }
}
