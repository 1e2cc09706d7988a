/**
 The video record, the fixed sample table that `fetchVideos` loads, and the
 search match used by the filtered view.
 */
module Videos {
  import opened JsStrings
  import opened Selection

  /** One video record. `views` is a JavaScript number that only ever holds a
      non-negative whole count; `thumbnail` is an opaque URL. */
  datatype Video = Video(id: int, title: string, channel: string, views: nat, thumbnail: string)

  /** The titles and channel names of the eight sample records. */
  const Title1: string := "Learn Vue 3 Composition API in 10 Minutes"
  const Channel1: string := "Vue Mastery"
  const Title2: string := "JavaScript ES6+ Features You Need to Know"
  const Channel2: string := "Code Academy"
  const Title3: string := "Building Modern Web Apps with React"
  const Channel3: string := "React Pro"
  const Title4: string := "CSS Grid vs Flexbox: When to Use What"
  const Channel4: string := "CSS Tricks"
  const Title5: string := "Node.js Backend Development Tutorial"
  const Channel5: string := "Backend Dev"
  const Title6: string := "TypeScript for Beginners"
  const Channel6: string := "TypeScript Hub"
  const Title7: string := "Docker Containerization Guide"
  const Channel7: string := "DevOps Master"
  const Title8: string := "Git and GitHub Workflow Best Practices"
  const Channel8: string := "Git Expert"

  /** The eight sample records. */
  const Sample1: Video := Video(1, Title1, Channel1, 1250000, "https://picsum.photos/400/225?random=1")
  const Sample2: Video := Video(2, Title2, Channel2, 890000, "https://picsum.photos/400/225?random=2")
  const Sample3: Video := Video(3, Title3, Channel3, 2100000, "https://picsum.photos/400/225?random=3")
  const Sample4: Video := Video(4, Title4, Channel4, 450000, "https://picsum.photos/400/225?random=4")
  const Sample5: Video := Video(5, Title5, Channel5, 780000, "https://picsum.photos/400/225?random=5")
  const Sample6: Video := Video(6, Title6, Channel6, 320000, "https://picsum.photos/400/225?random=6")
  const Sample7: Video := Video(7, Title7, Channel7, 650000, "https://picsum.photos/400/225?random=7")
  const Sample8: Video := Video(8, Title8, Channel8, 420000, "https://picsum.photos/400/225?random=8")

  /** The sample table, in load order. */
  const MockVideos: seq<Video> := [Sample1, Sample2, Sample3, Sample4, Sample5, Sample6, Sample7, Sample8]

  /** Record `i` of the table has id `i + 1`, so ids are distinct and count up from 1. */
  lemma MockVideosIds()
    ensures |MockVideos| == 8
    ensures forall i :: 0 <= i < |MockVideos| ==> MockVideos[i].id == i + 1
    ensures forall i, j :: 0 <= i < j < |MockVideos| ==> MockVideos[i].id != MockVideos[j].id
  {
  }

  /** The search test applied to one record: the lower-cased query, NOT
      trimmed, occurs in the lower-cased title or in the lower-cased channel. */
  function Matches(v: Video, query: string): (b: bool)
    ensures query == [] ==> b
    ensures b ==> |query| <= |v.title| || |query| <= |v.channel|
  {
    var q := Lower(query);
    Includes(Lower(v.title), q) || Includes(Lower(v.channel), q)
  }

  /** `Matches` as the callback handed to `filter`. */
  function MatchesQuery(query: string): Video -> bool {
    (v: Video) => Matches(v, query)
  }

  /** The filter step for a non-blank query: the records that match, in load order. */
  function FilterByQuery(vs: seq<Video>, query: string): (r: seq<Video>)
    ensures |r| <= |vs|
    ensures forall k :: 0 <= k < |r| ==> Matches(r[k], query) && r[k] in vs
  {
    Select(vs, MatchesQuery(query))
  }

  /** The positions of `vs` holding a record that matches `query`. */
  function MatchingPositions(vs: seq<Video>, query: string): set<int> {
    set i | 0 <= i < |vs| && Matches(vs[i], query)
  }

  /** The filter keeps as many records as there are matching positions. */
  lemma FilterByQueryCount(vs: seq<Video>, query: string)
    ensures |FilterByQuery(vs, query)| == |MatchingPositions(vs, query)|
  {
    var p := MatchesQuery(query);
    SelectCount(vs, p);
    assert Satisfying(vs, p) == MatchingPositions(vs, query);
  }

  /** Matching ignores letter case in the query: a query and its lower-case
      form select the same records. */
  lemma MatchesIgnoresQueryCase(v: Video, query: string)
    ensures Matches(v, query) <==> Matches(v, Lower(query))
  {
    LowerIdempotent(query);
  }

  /** Matching ignores letter case in the record: a record and its
      lower-cased copy match the same queries. */
  lemma MatchesIgnoresRecordCase(v: Video, query: string)
    ensures Matches(v, query) <==> Matches(v.(title := Lower(v.title), channel := Lower(v.channel)), query)
  {
    LowerIdempotent(v.title);
    LowerIdempotent(v.channel);
  }
}
