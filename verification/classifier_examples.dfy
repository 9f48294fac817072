/** Three of the five example texts the detector view offers, classified,
    and one text that reaches the Aggressive Tone branch. Each fact about a
    literal text is its own small lemma: the solver handles literal strings
    reliably one fact at a time, but not several facts combined in one proof. */
module ClassifierExamples {
  import opened Classifier

  // ---------------------------------------------------------------- "You are so stupid and worthless!"

  lemma StupidAt11()
    ensures OccursAt(ToLower("You are so stupid and worthless!"), HateKeywords[1], 11)
  {
    assert HateKeywords[1] == "stupid";
    LowerSlice("You are so stupid and worthless!", 11, 17);
    assert "You are so stupid and worthless!"[11..17] == "stupid";
    assert ToLower("stupid") == "stupid";
  }

  lemma InsultTail()
    ensures "You are so stupid and worthless!"[1..] == "ou are so stupid and worthless!"
  {
  }

  lemma InsultTailHasNoCapital()
    ensures forall i :: 0 <= i < |"ou are so stupid and worthless!"| ==> !IsUpper("ou are so stupid and worthless!"[i])
  {
  }

  lemma OneCapitalInInsult()
    ensures CountUpper("You are so stupid and worthless!") == 1
  {
    InsultTail();
    InsultTailHasNoCapital();
  }

  /** A keyword with few capitals: offensive, scored 60 + 30. */
  lemma ExampleInsult()
    ensures Classify("You are so stupid and worthless!").category == OffensiveLanguage
    ensures Classify("You are so stupid and worthless!").confidence == 90
  {
    StupidAt11();
    OneCapitalInInsult();
    OffensiveWhenKeywordAt("You are so stupid and worthless!", 1, 11);
  }

  // ---------------------------------------------------------------- "I HATE THIS SO MUCH!!!"

  lemma HateAt2()
    ensures OccursAt(ToLower("I HATE THIS SO MUCH!!!"), HateKeywords[0], 2)
  {
    assert HateKeywords[0] == "hate";
    LowerSlice("I HATE THIS SO MUCH!!!", 2, 6);
    assert "I HATE THIS SO MUCH!!!"[2..6] == "HATE";
    assert ToLower("HATE") == "hate";
  }

  /** Words in capitals, single spaces between them, and a tail without
      capitals: the count is the number of letters in the words. */
  lemma {:induction false} WordsInCapitals(w1: string, w2: string, w3: string, w4: string, w5: string, tail: string)
    requires forall i :: 0 <= i < |w1| ==> IsUpper(w1[i])
    requires forall i :: 0 <= i < |w2| ==> IsUpper(w2[i])
    requires forall i :: 0 <= i < |w3| ==> IsUpper(w3[i])
    requires forall i :: 0 <= i < |w4| ==> IsUpper(w4[i])
    requires forall i :: 0 <= i < |w5| ==> IsUpper(w5[i])
    requires forall i :: 0 <= i < |tail| ==> !IsUpper(tail[i])
    ensures CountUpper(w1 + " " + w2 + " " + w3 + " " + w4 + " " + w5 + tail)
      == |w1| + |w2| + |w3| + |w4| + |w5|
  {
    CountUpperAllUpper(w1);
    CountUpperAllUpper(w2);
    CountUpperAllUpper(w3);
    CountUpperAllUpper(w4);
    CountUpperAllUpper(w5);
    assert CountUpper(" ") == 0;
    var p1 := w1 + " ";
    CountUpperAppend(w1, " ");
    var p2 := p1 + w2;
    CountUpperAppend(p1, w2);
    var p3 := p2 + " ";
    CountUpperAppend(p2, " ");
    var p4 := p3 + w3;
    CountUpperAppend(p3, w3);
    var p5 := p4 + " ";
    CountUpperAppend(p4, " ");
    var p6 := p5 + w4;
    CountUpperAppend(p5, w4);
    var p7 := p6 + " ";
    CountUpperAppend(p6, " ");
    var p8 := p7 + w5;
    CountUpperAppend(p7, w5);
    CountUpperAppend(p8, tail);
  }

  lemma ShoutingWords()
    ensures "I HATE THIS SO MUCH!!!" == "I" + " " + "HATE" + " " + "THIS" + " " + "SO" + " " + "MUCH" + "!!!"
  {
  }

  /** Fifteen of the 22 characters are capitals. */
  lemma FifteenCapitalsInShouting()
    ensures CountUpper("I HATE THIS SO MUCH!!!") == 15
  {
    ShoutingWords();
    WordsInCapitals("I", "HATE", "THIS", "SO", "MUCH", "!!!");
  }

  /** The keyword test is case-insensitive, so "HATE" is found as "hate";
      with capitals in the majority the score is 60 + 30 + 10, capped at 95. */
  lemma ExampleShouting()
    ensures Classify("I HATE THIS SO MUCH!!!").isHateSpeech
    ensures Classify("I HATE THIS SO MUCH!!!").category == OffensiveLanguage
    ensures Classify("I HATE THIS SO MUCH!!!").confidence == 95
  {
    HateAt2();
    FifteenCapitalsInShouting();
    OffensiveWhenKeywordAt("I HATE THIS SO MUCH!!!", 0, 2);
  }

  // ---------------------------------------------------------------- "I love this new technology!"

  lemma LoveLower()
    ensures ToLower("I love this new technology!") == "i love this new technology!"
  {
  }

  lemma LoveLacksLetters()
    ensures 'a' !in "i love this new technology!" && 'd' !in "i love this new technology!"
    ensures 'k' !in "i love this new technology!" && 'u' !in "i love this new technology!"
    ensures 'r' !in "i love this new technology!"
  {
  }

  /** Every keyword holds one of the letters a, d, k, u, r. */
  lemma KeywordsHoldRareLetter(j: nat)
    requires j < |HateKeywords|
    ensures var k := HateKeywords[j]; 'a' in k || 'd' in k || 'k' in k || 'u' in k || 'r' in k
  {
  }

  lemma NoKeywordInLove()
    ensures !KeywordOccurs("I love this new technology!")
  {
    LoveLower();
    LoveLacksLetters();
    var lower := "i love this new technology!";
    forall j | 0 <= j < |HateKeywords|
      ensures !Occurs(lower, HateKeywords[j])
    {
      var k := HateKeywords[j];
      KeywordsHoldRareLetter(j);
      if 'a' in k { MissingLetter(lower, k, 'a'); }
      else if 'd' in k { MissingLetter(lower, k, 'd'); }
      else if 'k' in k { MissingLetter(lower, k, 'k'); }
      else if 'u' in k { MissingLetter(lower, k, 'u'); }
      else { MissingLetter(lower, k, 'r'); }
    }
  }

  lemma LoveTail()
    ensures "I love this new technology!"[1..] == " love this new technology!"
  {
  }

  lemma LoveTailHasNoCapital()
    ensures forall i :: 0 <= i < |" love this new technology!"| ==> !IsUpper(" love this new technology!"[i])
  {
  }

  lemma OneCapitalInLove()
    ensures CountUpper("I love this new technology!") == 1
  {
    LoveTail();
    LoveTailHasNoCapital();
  }

  /** A harmless text of 27 characters: safe, scored round(85 - 2.7) = 82. */
  lemma ExampleSafe()
    ensures Classify("I love this new technology!").category == SafeContent
    ensures Classify("I love this new technology!").confidence == 82
  {
    NoKeywordInLove();
    OneCapitalInLove();
    SafeWhen("I love this new technology!");
  }

  // ---------------------------------------------------------------- "AAAA!!!"

  lemma ShoutLower()
    ensures ToLower("AAAA!!!") == "aaaa!!!"
  {
  }

  lemma ShoutLacksLetters()
    ensures 'e' !in "aaaa!!!" && 'i' !in "aaaa!!!" && 'u' !in "aaaa!!!" && 'r' !in "aaaa!!!"
  {
  }

  /** Every keyword holds one of the letters e, i, u, r. */
  lemma KeywordsHoldVowelOrR(j: nat)
    requires j < |HateKeywords|
    ensures var k := HateKeywords[j]; 'e' in k || 'i' in k || 'u' in k || 'r' in k
  {
  }

  lemma NoKeywordInShout()
    ensures !KeywordOccurs("AAAA!!!")
  {
    ShoutLower();
    ShoutLacksLetters();
    var lower := "aaaa!!!";
    forall j | 0 <= j < |HateKeywords|
      ensures !Occurs(lower, HateKeywords[j])
    {
      var k := HateKeywords[j];
      KeywordsHoldVowelOrR(j);
      if 'e' in k { MissingLetter(lower, k, 'e'); }
      else if 'i' in k { MissingLetter(lower, k, 'i'); }
      else if 'u' in k { MissingLetter(lower, k, 'u'); }
      else { MissingLetter(lower, k, 'r'); }
    }
  }

  lemma ShoutSplit()
    ensures "AAAA!!!" == "AAAA" + "!!!"
  {
  }

  lemma FourCapitalsInShout()
    ensures CountUpper("AAAA!!!") == 4
  {
    ShoutSplit();
    CountUpperAllUpper("AAAA");
    CountUpperAppend("AAAA", "!!!");
  }

  lemma ThreeBangsInShout()
    ensures CountChar("AAAA!!!", '!') == 3
  {
    CountCharIsMultiplicity("AAAA!!!", '!');
    assert multiset("AAAA!!!")['!'] == 3;
  }

  /** No keyword, but capitals in the majority and three exclamation marks:
      aggressive, scored 70. */
  lemma ExampleAggressive()
    ensures Classify("AAAA!!!").category == AggressiveTone
    ensures Classify("AAAA!!!").confidence == 70
  {
    NoKeywordInShout();
    FourCapitalsInShout();
    ThreeBangsInShout();
    ClassifyVerdict("AAAA!!!");
    ClassifyConfidence("AAAA!!!");
  }
}
