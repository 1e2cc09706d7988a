/**
 Facts about the sample titles and channel names as text: which lower-cased
 strings contain the queries "vue", "react" and "  vue". Each absence fact
 finds a character of the query, or a two-character window of it, that the
 lower-cased string lacks; the window facts first pin down every position
 of the window's first character.
 */
module SampleText {
  import opened JsStrings
  import opened Videos

  /** "learn vue 3 composition api in 10 minutes" includes "vue". */
  lemma Title1HasVue()
    ensures Includes(Lower(Title1), "vue")
  {
    var l := Lower(Title1);
    assert l[6] == 'v' && l[7] == 'u' && l[8] == 'e';
    assert l[6..9] == "vue";
    OccurrenceIsIncluded(l, "vue", 6);
  }

  /** "react pro" includes "react". */
  lemma Channel3HasReact()
    ensures Includes(Lower(Channel3), "react")
  {
    var l := Lower(Channel3);
    assert l[0] == 'r' && l[1] == 'e' && l[2] == 'a' && l[3] == 'c' && l[4] == 't';
    assert l[0..5] == "react";
    OccurrenceIsIncluded(l, "react", 0);
  }

  /** Where the lower-cased second title has a 'v': the anchors for a window fact. */
  lemma Title2PositionsV()
    ensures forall i :: 0 <= i < |Lower(Title2)| && Lower(Title2)[i] == 'v' ==> i == 2
  {
  }

  /** The lower-cased second title does not include "vue". */
  lemma Title2LacksVue()
    ensures !Includes(Lower(Title2), "vue")
  {
    var l := Lower(Title2);
    Title2PositionsV();
    assert l[3] == 'a';
    AbsentPairNotIncluded(l, "vue", 0);
  }

  /** The lower-cased second channel name does not include "vue". */
  lemma Channel2LacksVue()
    ensures !Includes(Lower(Channel2), "vue")
  {
    var l := Lower(Channel2);
    forall i | 0 <= i < |l|
      ensures l[i] != 'v'
    {
    }
    AbsentCharNotIncluded(l, "vue", 0);
  }

  /** The lower-cased third title does not include "vue". */
  lemma Title3LacksVue()
    ensures !Includes(Lower(Title3), "vue")
  {
    var l := Lower(Title3);
    forall i | 0 <= i < |l|
      ensures l[i] != 'v'
    {
    }
    AbsentCharNotIncluded(l, "vue", 0);
  }

  /** The lower-cased third channel name does not include "vue". */
  lemma Channel3LacksVue()
    ensures !Includes(Lower(Channel3), "vue")
  {
    var l := Lower(Channel3);
    forall i | 0 <= i < |l|
      ensures l[i] != 'v'
    {
    }
    AbsentCharNotIncluded(l, "vue", 0);
  }

  /** Where the lower-cased fourth title has a 'v': the anchors for a window fact. */
  lemma Title4PositionsV()
    ensures forall i :: 0 <= i < |Lower(Title4)| && Lower(Title4)[i] == 'v' ==> i == 9
  {
  }

  /** The lower-cased fourth title does not include "vue". */
  lemma Title4LacksVue()
    ensures !Includes(Lower(Title4), "vue")
  {
    var l := Lower(Title4);
    Title4PositionsV();
    assert l[10] == 's';
    AbsentPairNotIncluded(l, "vue", 0);
  }

  /** The lower-cased fourth channel name does not include "vue". */
  lemma Channel4LacksVue()
    ensures !Includes(Lower(Channel4), "vue")
  {
    var l := Lower(Channel4);
    forall i | 0 <= i < |l|
      ensures l[i] != 'v'
    {
    }
    AbsentCharNotIncluded(l, "vue", 0);
  }

  /** Where the lower-cased fifth title has a 'v': the anchors for a window fact. */
  lemma Title5PositionsV()
    ensures forall i :: 0 <= i < |Lower(Title5)| && Lower(Title5)[i] == 'v' ==> i == 18
  {
  }

  /** The lower-cased fifth title does not include "vue". */
  lemma Title5LacksVue()
    ensures !Includes(Lower(Title5), "vue")
  {
    var l := Lower(Title5);
    Title5PositionsV();
    assert l[19] == 'e';
    AbsentPairNotIncluded(l, "vue", 0);
  }

  /** The lower-cased fifth channel name does not include "vue". */
  lemma Channel5LacksVue()
    ensures !Includes(Lower(Channel5), "vue")
  {
    var l := Lower(Channel5);
    forall i | 0 <= i < |l|
      ensures l[i] != 'u'
    {
    }
    AbsentCharNotIncluded(l, "vue", 1);
  }

  /** The lower-cased sixth title does not include "vue". */
  lemma Title6LacksVue()
    ensures !Includes(Lower(Title6), "vue")
  {
    var l := Lower(Title6);
    forall i | 0 <= i < |l|
      ensures l[i] != 'v'
    {
    }
    AbsentCharNotIncluded(l, "vue", 0);
  }

  /** The lower-cased sixth channel name does not include "vue". */
  lemma Channel6LacksVue()
    ensures !Includes(Lower(Channel6), "vue")
  {
    var l := Lower(Channel6);
    forall i | 0 <= i < |l|
      ensures l[i] != 'v'
    {
    }
    AbsentCharNotIncluded(l, "vue", 0);
  }

  /** The lower-cased seventh title does not include "vue". */
  lemma Title7LacksVue()
    ensures !Includes(Lower(Title7), "vue")
  {
    var l := Lower(Title7);
    forall i | 0 <= i < |l|
      ensures l[i] != 'v'
    {
    }
    AbsentCharNotIncluded(l, "vue", 0);
  }

  /** The lower-cased seventh channel name does not include "vue". */
  lemma Channel7LacksVue()
    ensures !Includes(Lower(Channel7), "vue")
  {
    var l := Lower(Channel7);
    forall i | 0 <= i < |l|
      ensures l[i] != 'u'
    {
    }
    AbsentCharNotIncluded(l, "vue", 1);
  }

  /** The lower-cased eighth title does not include "vue". */
  lemma Title8LacksVue()
    ensures !Includes(Lower(Title8), "vue")
  {
    var l := Lower(Title8);
    forall i | 0 <= i < |l|
      ensures l[i] != 'v'
    {
    }
    AbsentCharNotIncluded(l, "vue", 0);
  }

  /** The lower-cased eighth channel name does not include "vue". */
  lemma Channel8LacksVue()
    ensures !Includes(Lower(Channel8), "vue")
  {
    var l := Lower(Channel8);
    forall i | 0 <= i < |l|
      ensures l[i] != 'v'
    {
    }
    AbsentCharNotIncluded(l, "vue", 0);
  }

  /** Where the lower-cased first title has a 'r': the anchors for a window fact. */
  lemma Title1PositionsR()
    ensures forall i :: 0 <= i < |Lower(Title1)| && Lower(Title1)[i] == 'r' ==> i == 3
  {
  }

  /** The lower-cased first title does not include "react". */
  lemma Title1LacksReact()
    ensures !Includes(Lower(Title1), "react")
  {
    var l := Lower(Title1);
    Title1PositionsR();
    assert l[4] == 'n';
    AbsentPairNotIncluded(l, "react", 0);
  }

  /** The lower-cased first channel name does not include "react". */
  lemma Channel1LacksReact()
    ensures !Includes(Lower(Channel1), "react")
  {
    var l := Lower(Channel1);
    forall i | 0 <= i < |l|
      ensures l[i] != 'c'
    {
    }
    AbsentCharNotIncluded(l, "react", 3);
  }

  /** Where the lower-cased second title has a 'c': the anchors for a window fact. */
  lemma Title2PositionsC()
    ensures forall i :: 0 <= i < |Lower(Title2)| && Lower(Title2)[i] == 'c' ==> i == 5
  {
  }

  /** The lower-cased second title does not include "react". */
  lemma Title2LacksReact()
    ensures !Includes(Lower(Title2), "react")
  {
    var l := Lower(Title2);
    Title2PositionsC();
    assert l[6] == 'r';
    AbsentPairNotIncluded(l, "react", 3);
  }

  /** The lower-cased second channel name does not include "react". */
  lemma Channel2LacksReact()
    ensures !Includes(Lower(Channel2), "react")
  {
    var l := Lower(Channel2);
    forall i | 0 <= i < |l|
      ensures l[i] != 'r'
    {
    }
    AbsentCharNotIncluded(l, "react", 0);
  }

  /** Where the lower-cased fourth title has a 'r': the anchors for a window fact. */
  lemma Title4PositionsR()
    ensures forall i :: 0 <= i < |Lower(Title4)| && Lower(Title4)[i] == 'r' ==> i == 5
  {
  }

  /** The lower-cased fourth title does not include "react". */
  lemma Title4LacksReact()
    ensures !Includes(Lower(Title4), "react")
  {
    var l := Lower(Title4);
    Title4PositionsR();
    assert l[6] == 'i';
    AbsentPairNotIncluded(l, "react", 0);
  }

  /** The lower-cased fourth channel name does not include "react". */
  lemma Channel4LacksReact()
    ensures !Includes(Lower(Channel4), "react")
  {
    var l := Lower(Channel4);
    forall i | 0 <= i < |l|
      ensures l[i] != 'e'
    {
    }
    AbsentCharNotIncluded(l, "react", 1);
  }

  /** Where the lower-cased fifth title has a 'r': the anchors for a window fact. */
  lemma Title5PositionsR()
    ensures forall i :: 0 <= i < |Lower(Title5)| && Lower(Title5)[i] == 'r' ==> i == 32
  {
  }

  /** The lower-cased fifth title does not include "react". */
  lemma Title5LacksReact()
    ensures !Includes(Lower(Title5), "react")
  {
    var l := Lower(Title5);
    Title5PositionsR();
    assert l[33] == 'i';
    AbsentPairNotIncluded(l, "react", 0);
  }

  /** The lower-cased fifth channel name does not include "react". */
  lemma Channel5LacksReact()
    ensures !Includes(Lower(Channel5), "react")
  {
    var l := Lower(Channel5);
    forall i | 0 <= i < |l|
      ensures l[i] != 'r'
    {
    }
    AbsentCharNotIncluded(l, "react", 0);
  }

  /** The lower-cased sixth title does not include "react". */
  lemma Title6LacksReact()
    ensures !Includes(Lower(Title6), "react")
  {
    var l := Lower(Title6);
    forall i | 0 <= i < |l|
      ensures l[i] != 'a'
    {
    }
    AbsentCharNotIncluded(l, "react", 2);
  }

  /** The lower-cased sixth channel name does not include "react". */
  lemma Channel6LacksReact()
    ensures !Includes(Lower(Channel6), "react")
  {
    var l := Lower(Channel6);
    forall i | 0 <= i < |l|
      ensures l[i] != 'a'
    {
    }
    AbsentCharNotIncluded(l, "react", 2);
  }

  /** Where the lower-cased seventh title has a 'r': the anchors for a window fact. */
  lemma Title7PositionsR()
    ensures forall i :: 0 <= i < |Lower(Title7)| && Lower(Title7)[i] == 'r' ==> i == 5 || i == 15
  {
  }

  /** The lower-cased seventh title does not include "react". */
  lemma Title7LacksReact()
    ensures !Includes(Lower(Title7), "react")
  {
    var l := Lower(Title7);
    Title7PositionsR();
    assert l[6] == ' ';
    assert l[16] == 'i';
    AbsentPairNotIncluded(l, "react", 0);
  }

  /** The lower-cased seventh channel name does not include "react". */
  lemma Channel7LacksReact()
    ensures !Includes(Lower(Channel7), "react")
  {
    var l := Lower(Channel7);
    forall i | 0 <= i < |l|
      ensures l[i] != 'c'
    {
    }
    AbsentCharNotIncluded(l, "react", 3);
  }

  /** Where the lower-cased eighth title has a 'r': the anchors for a window fact. */
  lemma Title8PositionsR()
    ensures forall i :: 0 <= i < |Lower(Title8)| && Lower(Title8)[i] == 'r' ==> i == 17 || i == 30
  {
  }

  /** The lower-cased eighth title does not include "react". */
  lemma Title8LacksReact()
    ensures !Includes(Lower(Title8), "react")
  {
    var l := Lower(Title8);
    Title8PositionsR();
    assert l[18] == 'k';
    assert l[31] == 'a';
    AbsentPairNotIncluded(l, "react", 0);
  }

  /** The lower-cased eighth channel name does not include "react". */
  lemma Channel8LacksReact()
    ensures !Includes(Lower(Channel8), "react")
  {
    var l := Lower(Channel8);
    forall i | 0 <= i < |l|
      ensures l[i] != 'a'
    {
    }
    AbsentCharNotIncluded(l, "react", 2);
  }

  /** Where the lower-cased first title has a space: the anchors for a window fact. */
  lemma Title1PositionsSpace()
    ensures forall i :: 0 <= i < |Lower(Title1)| && Lower(Title1)[i] == ' ' ==> i == 5 || i == 9 || i == 11 || i == 23 || i == 27 || i == 30 || i == 33
  {
  }

  /** The lower-cased first title does not include "  vue". */
  lemma Title1LacksPaddedVue()
    ensures !Includes(Lower(Title1), "  vue")
  {
    var l := Lower(Title1);
    Title1PositionsSpace();
    assert l[6] == 'v';
    assert l[10] == '3';
    assert l[12] == 'c';
    assert l[24] == 'a';
    assert l[28] == 'i';
    assert l[31] == '1';
    assert l[34] == 'm';
    AbsentPairNotIncluded(l, "  vue", 0);
  }

  /** Where the lower-cased first channel name has a space: the anchors for a window fact. */
  lemma Channel1PositionsSpace()
    ensures forall i :: 0 <= i < |Lower(Channel1)| && Lower(Channel1)[i] == ' ' ==> i == 3
  {
  }

  /** The lower-cased first channel name does not include "  vue". */
  lemma Channel1LacksPaddedVue()
    ensures !Includes(Lower(Channel1), "  vue")
  {
    var l := Lower(Channel1);
    Channel1PositionsSpace();
    assert l[4] == 'm';
    AbsentPairNotIncluded(l, "  vue", 0);
  }
}
