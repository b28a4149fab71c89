/** The stories tab of the Discover page: two selectors (country and
    category) filter the featured stories. The selectors' option values are
    derived from their labels by lower-casing them and replacing the first
    space with a hyphen, while the filter compares them with the stories'
    capitalised fields and with the initial value "all". */
module DiscoverPage {
  import Seqs
  import Text

  datatype Story = Story(id: int, title: string, category: string, country: string)

  const Countries: seq<string> := [
    "All Countries", "Nigeria", "Kenya", "Ghana", "South Africa",
    "Ethiopia", "Morocco", "Egypt", "Tanzania", "Uganda"]

  const Categories: seq<string> := [
    "All Categories", "Art & Culture", "Food & Cuisine", "Fashion",
    "Technology", "Agriculture", "Music & Entertainment", "Tourism"]

  const FeaturedStories: seq<Story> := [
    Story(1, "The Rise of Ethiopian Coffee Culture", "Food & Cuisine", "Ethiopia"),
    Story(2, "Kenyan Tech Startups Revolutionizing Agriculture", "Technology", "Kenya"),
    Story(3, "Traditional Kente Meets Modern Fashion", "Fashion", "Ghana")]

  /** `name.toLowerCase().replace(' ', '-')`: a string pattern, so only the first space goes. */
  function OptionValue(name: string): (v: string)
    ensures |v| == |name|
    ensures forall k :: 0 <= k < |v| ==> !Text.IsUpperAscii(v[k])
    ensures ' ' !in name ==> v == Text.Lower(name)
  {
    var low := Text.Lower(name);
    Text.ReplaceFirstFrom(low, " ", "-");
    var v := Text.ReplaceFirst(low, " ", "-");
    assert forall k :: 0 <= k < |v| ==> !Text.IsUpperAscii(v[k]) by {
      forall k | 0 <= k < |v| ensures !Text.IsUpperAscii(v[k]) {
        assert v[k] in low || v[k] in "-";
        if v[k] in low {
          var j :| 0 <= j < |low| && low[j] == v[k];
        }
      }
    }
    assert ' ' !in name ==> v == low by {
      if ' ' !in name {
        Text.LowerKeepsNoSpace(name);
        Text.ReplaceFirstAbsent(low, " ", "-");
      }
    }
    v
  }

  predicate MatchesCountry(s: Story, country: string) { country == "all" || s.country == country }

  predicate MatchesCategory(s: Story, category: string) { category == "all" || s.category == category }

  function Matcher(country: string, category: string): Story -> bool {
    (s: Story) => MatchesCountry(s, country) && MatchesCategory(s, category)
  }

  /** `filteredStories`: the stories matching both selections, in order. */
  function FilteredStories(stories: seq<Story>, country: string, category: string): (r: seq<Story>)
    ensures forall i :: 0 <= i < |r| ==> r[i] in stories && MatchesCountry(r[i], country) && MatchesCategory(r[i], category)
    ensures forall i :: (0 <= i < |stories| && MatchesCountry(stories[i], country)
                         && MatchesCategory(stories[i], category)) ==> stories[i] in r
    ensures Seqs.IsSubsequence(r, stories)
  {
    Seqs.Filter(stories, Matcher(country, category))
  }

  // ---------------------------------------------------------------- properties

  /** The initial selections show every story. */
  lemma InitialShowsAll(stories: seq<Story>)
    ensures FilteredStories(stories, "all", "all") == stories
  {
  }

  /** Stories whose country begins with a capital letter, as every featured story's does. */
  predicate CapitalisedCountries(stories: seq<Story>) {
    forall i :: 0 <= i < |stories| ==> |stories[i].country| > 0 && Text.IsUpperAscii(stories[i].country[0])
  }

  predicate CapitalisedCategories(stories: seq<Story>) {
    forall i :: 0 <= i < |stories| ==> |stories[i].category| > 0 && Text.IsUpperAscii(stories[i].category[0])
  }

  /** No name of either selector has three characters, so no option value is "all". */
  lemma NoOptionIsAll()
    ensures forall i :: 0 <= i < |Countries| ==> OptionValue(Countries[i]) != "all"
    ensures forall i :: 0 <= i < |Categories| ==> OptionValue(Categories[i]) != "all"
  {
    forall i | 0 <= i < |Countries| ensures OptionValue(Countries[i]) != "all" {
      assert |Countries[i]| != 3;
    }
    forall i | 0 <= i < |Categories| ensures OptionValue(Categories[i]) != "all" {
      assert |Categories[i]| != 3;
    }
  }

  /** Picking any country option, "All Countries" included, empties the list
      of stories whose countries are capitalised. */
  lemma CountryOptionEmpties(stories: seq<Story>, name: string, category: string)
    requires CapitalisedCountries(stories)
    requires OptionValue(name) != "all"
    ensures FilteredStories(stories, OptionValue(name), category) == []
  {
    var v := OptionValue(name);
    forall i | 0 <= i < |stories| ensures !Matcher(v, category)(stories[i]) {
      if |v| > 0 {
        assert stories[i].country[0] != v[0];
      }
    }
  }

  /** The same holds for any category option. */
  lemma CategoryOptionEmpties(stories: seq<Story>, country: string, name: string)
    requires CapitalisedCategories(stories)
    requires OptionValue(name) != "all"
    ensures FilteredStories(stories, country, OptionValue(name)) == []
  {
    var v := OptionValue(name);
    forall i | 0 <= i < |stories| ensures !Matcher(country, v)(stories[i]) {
      if |v| > 0 {
        assert stories[i].category[0] != v[0];
      }
    }
  }

  /** On the page as written: once a country is picked from the selector,
      no featured story is shown. */
  lemma FeaturedAfterCountryPick(i: int, category: string)
    requires 0 <= i < |Countries|
    ensures FilteredStories(FeaturedStories, OptionValue(Countries[i]), category) == []
  {
    NoOptionIsAll();
    assert CapitalisedCountries(FeaturedStories) by {
      assert FeaturedStories[0].country[0] == 'E';
      assert FeaturedStories[1].country[0] == 'K';
      assert FeaturedStories[2].country[0] == 'G';
    }
    CountryOptionEmpties(FeaturedStories, Countries[i], category);
  }

  /** Likewise once a category is picked. */
  lemma FeaturedAfterCategoryPick(country: string, i: int)
    requires 0 <= i < |Categories|
    ensures FilteredStories(FeaturedStories, country, OptionValue(Categories[i])) == []
  {
    NoOptionIsAll();
    assert CapitalisedCategories(FeaturedStories) by {
      assert FeaturedStories[0].category[0] == 'F';
      assert FeaturedStories[1].category[0] == 'T';
      assert FeaturedStories[2].category[0] == 'F';
    }
    CategoryOptionEmpties(FeaturedStories, country, Categories[i]);
  }

  /** Only the first space becomes a hyphen; later spaces stay. */
  lemma OnlyFirstSpace(a: string, b: string)
    requires ' ' !in a
    ensures OptionValue(a + " " + b) == Text.Lower(a) + "-" + Text.Lower(b)
  {
    var low := Text.Lower(a + " " + b);
    assert low == Text.Lower(a) + ([' '] + Text.Lower(b));
    assert ' ' !in Text.Lower(a) by {
      forall k | 0 <= k < |a| ensures Text.Lower(a)[k] != ' ' {
        assert a[k] != ' ';
      }
    }
    Text.ReplaceFirstChar(Text.Lower(a), ' ', Text.Lower(b), "-");
  }

  /** A one-word first part of five letters puts the hyphen at position 5,
      and a space second in the rest stays at position 7. */
  lemma SpaceAfterFive(a: string, b: string)
    requires ' ' !in a && |a| == 5 && |b| > 1 && b[1] == ' '
    ensures OptionValue(a + " " + b)[5] == '-' && OptionValue(a + " " + b)[7] == ' '
  {
    OnlyFirstSpace(a, b);
    var la, lb := Text.Lower(a), Text.Lower(b);
    assert lb[1] == ' ';
    assert (la + "-" + lb)[5] == '-' && (la + "-" + lb)[7] == lb[1];
  }

  /** "Music & Entertainment" gives "music-& entertainment": a hyphen at
      position 5, the second space still at position 7. */
  lemma SecondSpaceKept(name: string)
    requires name == "Music & Entertainment"
    ensures OptionValue(name)[5] == '-' && OptionValue(name)[7] == ' '
  {
    var a, b := name[..5], name[6..];
    assert name == a + " " + b;
    assert ' ' !in a by {
      assert a == "Music";
    }
    assert b[1] == name[7];
    SpaceAfterFive(a, b);
  }

}
