/**
 * The global cluster-id assignment of `run_clustering_task` (ml/inference_worker.py): reviews are
 * split by source category, each category's topics are remapped to consecutive global ids with a
 * running offset, and the reviews and clusters are assembled. The topic model, the summary generator,
 * the 2-D layout and the sentiment classifier are parameters.
 */
module ClusteringTask {
  import opened Wrappers
  import opened Domain
  import opened SourceStatistics
  import opened ReviewCounting
  import CleanText
  import CsvExport

  /** `MAX_CLUSTERS`: clusters kept per category. */
  const MaxClusters := 3
  /** Rows read from the uploaded CSV. */
  const RowLimit := 500
  /** Categories with fewer texts are skipped. */
  const MinTexts := 5
  /** BERTopic's outlier topic, kept as the noise cluster id. */
  const Noise := -1
  const NoiseTitle := "Шум"
  const MissingColumns := "В CSV нет колонок text или src"

  // ---------------------------------------------------------------------------
  // Input, models and output
  // ---------------------------------------------------------------------------

  /** One CSV row: its `text`, its `src` category and its `ID` cell. */
  datatype Row = Row(text: string, src: string, idCell: string)

  datatype Table = Table(columns: set<string>, rows: seq<Row>)

  /** A row of `get_topic_info()`: a topic and the number of texts assigned to it. */
  datatype TopicInfo = TopicInfo(topic: int, count: nat)

  /** What `fit_transform` and `get_topic_info` give for one category. */
  datatype TopicFit = TopicFit(topics: seq<int>, info: seq<TopicInfo>)

  /** A class index of the three-way sentiment classifier. */
  type ClassLabel = l: nat | l < 3

  /**
   * The foreign parts: the topic model per category, the generated summary (a JSON object) per
   * category and topic, the UMAP layout of a category's texts for a neighbourhood size, and the
   * classifier's label and confidence for a cleaned text.
   */
  datatype Models = Models(
    fit: (string, seq<string>) -> TopicFit,
    summarize: (string, int) -> map<string, string>,
    layout: (seq<string>, nat) -> seq<(real, real)>,
    classify: string -> (ClassLabel, real))

  /** What the libraries guarantee: one topic per text, distinct topics in the info table, one point per text. */
  ghost predicate WellBehaved(m: Models) {
    && (forall c, ts :: |m.fit(c, ts).topics| == |ts|)
    && (forall c, ts :: DistinctTopics(m.fit(c, ts).info))
    && (forall ts, k :: |m.layout(ts, k)| == |ts|)
  }

  predicate DistinctTopics(info: seq<TopicInfo>) {
    forall i, j :: 0 <= i < j < |info| ==> info[i].topic != info[j].topic
  }

  /** An entry of `cluster_summaries`. */
  datatype ClusterSummary = ClusterSummary(globalId: int, category: string, title: string, description: string, reviewCount: nat)

  /** A row of a processed category frame. */
  datatype FrameRow = FrameRow(row: Row, clusterId: int, title: string, x: real, y: real)

  datatype OutReview = OutReview(sourceId: string, text: string, sentiment: Sentiment, confidence: real, clusterId: int, x: real, y: real)

  datatype OutCluster = OutCluster(id: int, title: string, summary: string)

  datatype TaskOutput = TaskOutput(reviews: seq<OutReview>, clusters: seq<OutCluster>)

  // ---------------------------------------------------------------------------
  // Pure pieces
  // ---------------------------------------------------------------------------

  /** `SENTIMENT_MAP`. */
  function SentimentOfLabel(l: ClassLabel): (s: Sentiment)
    ensures s == Negative <==> l == 0
    ensures s == Neutral <==> l == 1
    ensures s == Positive <==> l == 2
  {
    if l == 0 then Negative else if l == 1 then Neutral else Positive
  }

  /** The export's labels are the classifier's class indices: label `k.0` reads back as `SENTIMENT_MAP[k]`. */
  lemma ExportLabelsMatchClasses(l: ClassLabel)
    ensures CsvExport.SentimentLabel(SentimentOfLabel(l)) == [('0' as int + l) as char] + ".0"
    ensures CsvExport.LabelSentiment([('0' as int + l) as char] + ".0") == Some(SentimentOfLabel(l))
  {
  }

  /** `pd.read_csv(...)[:500]`. */
  function Truncate(rows: seq<Row>): (kept: seq<Row>)
    ensures |kept| <= RowLimit
    ensures |rows| <= RowLimit ==> kept == rows
    ensures kept == rows[..|kept|]
  {
    if |rows| <= RowLimit then rows else rows[..RowLimit]
  }

  /** The `src` column. */
  function SrcColumn(rows: seq<Row>): (srcs: seq<string>)
    ensures |srcs| == |rows|
    ensures forall i :: 0 <= i < |rows| ==> srcs[i] == rows[i].src
  {
    seq(|rows|, i requires 0 <= i < |rows| => rows[i].src)
  }

  /** `df["src"].unique()`: the categories in order of first appearance. */
  function Categories(rows: seq<Row>): (cats: seq<string>)
    ensures DistinctStrings(cats)
    ensures forall c :: c in cats <==> exists r :: r in rows && r.src == c
  {
    var srcs := SrcColumn(rows);
    assert forall c :: (exists r :: r in rows && r.src == c) ==> c in srcs by {
      forall c | exists r :: r in rows && r.src == c ensures c in srcs {
        var r :| r in rows && r.src == c;
        var k :| 0 <= k < |rows| && rows[k] == r;
        assert srcs[k] == c;
      }
    }
    Dedup(srcs)
  }

  /**
   * The categories come in the order in which they first appear in the rows, so an earlier
   * category is processed first and gets the lower global ids.
   */
  lemma CategoriesInFirstAppearanceOrder(rows: seq<Row>)
    ensures forall i, j :: 0 <= i < j < |Categories(rows)| ==>
      FirstIndex(SrcColumn(rows), Categories(rows)[i]) < FirstIndex(SrcColumn(rows), Categories(rows)[j])
  {
    DedupOrder(SrcColumn(rows));
  }

  /** `df[df["src"] == category]`: the rows of one category, in order. */
  function RowsOf(rows: seq<Row>, c: string): (g: seq<Row>)
    ensures forall k :: 0 <= k < |g| ==> g[k].src == c
  {
    if rows == [] then []
    else RowsOf(rows[..|rows| - 1], c) + (if rows[|rows| - 1].src == c then [rows[|rows| - 1]] else [])
  }

  function Texts(rows: seq<Row>): (ts: seq<string>)
    ensures |ts| == |rows|
    ensures forall k :: 0 <= k < |rows| ==> ts[k] == rows[k].text
  {
    seq(|rows|, k requires 0 <= k < |rows| => rows[k].text)
  }

  /** The topics of the info table other than the outlier topic, in table order. */
  function RealTopics(info: seq<TopicInfo>): (ts: seq<int>)
    ensures Noise !in ts
    ensures forall t :: t in ts ==> exists k :: 0 <= k < |info| && info[k].topic == t
  {
    if info == [] then []
    else
      var rest := RealTopics(info[1..]);
      assert forall t :: t in rest ==> exists k :: 0 <= k < |info| && info[k].topic == t by {
        forall t | t in rest ensures exists k :: 0 <= k < |info| && info[k].topic == t {
          var k :| 0 <= k < |info[1..]| && info[1..][k].topic == t;
          assert info[k + 1].topic == t;
        }
      }
      if info[0].topic == Noise then rest else [info[0].topic] + rest
  }

  /** `top_ids`: the first `MAX_CLUSTERS` real topics. */
  function TopIds(info: seq<TopicInfo>): (top: seq<int>)
    ensures |top| <= MaxClusters
    ensures Noise !in top
    ensures |top| <= |RealTopics(info)| && top == RealTopics(info)[..|top|]
    ensures |top| == MaxClusters || top == RealTopics(info)
  {
    var nonNoise := RealTopics(info);
    if |nonNoise| <= MaxClusters then nonNoise else nonNoise[..MaxClusters]
  }

  lemma {:induction false} RealTopicsDistinct(info: seq<TopicInfo>)
    requires DistinctTopics(info)
    ensures Distinct(RealTopics(info))
  {
    if info != [] {
      assert DistinctTopics(info[1..]) by {
        forall i, j | 0 <= i < j < |info[1..]| ensures info[1..][i].topic != info[1..][j].topic {
          assert info[1..][i] == info[i + 1] && info[1..][j] == info[j + 1];
        }
      }
      RealTopicsDistinct(info[1..]);
      var rest := RealTopics(info[1..]);
      forall k | 0 <= k < |rest| ensures rest[k] != info[0].topic {
        assert rest[k] in rest;
        var m :| 0 <= m < |info[1..]| && info[1..][m].topic == rest[k];
        assert info[m + 1].topic == rest[k];
      }
    }
  }

  /** `remap_dict`: each top topic to its position. */
  function Remap(top: seq<int>): (remap: map<int, int>)
    requires Distinct(top)
    ensures remap.Keys == set t | t in top
    ensures forall i :: 0 <= i < |top| ==> remap[top[i]] == i
  {
    map i | 0 <= i < |top| :: top[i] := i
  }

  /** `n_neighbors` for UMAP: 15 above 15 texts, else `min(5, n - 1)` raised to at least 2. */
  function NNeighbors(n: nat): (k: nat)
    ensures 2 <= k <= 15
    ensures n > 15 ==> k == 15
    ensures n <= 15 ==> k <= 5
    ensures n <= 15 ==> k == if n < 3 then 2 else if n - 1 < 5 then n - 1 else 5
  {
    var k := if n > 15 then 15 else if 5 < n - 1 then 5 else n - 1;
    if k < 2 then 2 else k
  }

  /** The `Count` of a topic in the info table: the first row with that topic. */
  function CountOf(info: seq<TopicInfo>, t: int): nat {
    if info == [] then 0 else if info[0].topic == t then info[0].count else CountOf(info[1..], t)
  }

  /** The count of a topic is that of its first row in the table. */
  lemma {:induction false} CountOfFirst(info: seq<TopicInfo>, t: int, i: nat)
    requires i < |info| && info[i].topic == t && FirstOfTopic(info, i)
    ensures CountOf(info, t) == info[i].count
  {
    if i > 0 {
      var tail := info[1..];
      assert info[0].topic != t && tail[i - 1] == info[i];
      forall j | 0 <= j < i - 1 ensures tail[j].topic != t {
        assert tail[j] == info[j + 1];
      }
      CountOfFirst(tail, t, i - 1);
    }
  }

  /** A topic the table lacks has count 0. */
  lemma {:induction false} CountOfAbsent(info: seq<TopicInfo>, t: int)
    requires forall i :: 0 <= i < |info| ==> info[i].topic != t
    ensures CountOf(info, t) == 0
  {
    if info != [] {
      var tail := info[1..];
      forall i | 0 <= i < |tail| ensures tail[i].topic != t {
        assert tail[i] == info[i + 1];
      }
      CountOfAbsent(tail, t);
    }
  }

  /** No row before position `i` has the topic of row `i`. */
  predicate FirstOfTopic(info: seq<TopicInfo>, i: int)
    requires 0 <= i < |info|
  {
    forall j :: 0 <= j < i ==> info[j].topic != info[i].topic
  }

  /** `info.get("title", "No Title")`: the title a cluster summary gets. */
  function TitleOf(summary: map<string, string>): (title: string)
    ensures "title" in summary ==> title == summary["title"]
    ensures "title" !in summary ==> title == "No Title"
  {
    if "title" in summary then summary["title"] else "No Title"
  }

  function DescriptionOf(summary: map<string, string>): string {
    if "description" in summary then summary["description"] else "No Description"
  }

  /** `qwen_results[t]["title"]` as written in the relabel loop: a missing key raises (`None` here). */
  function TitleAsWritten(summary: map<string, string>): (title: Option<string>)
    ensures title.Some? <==> "title" in summary
  {
    if "title" in summary then Some(summary["title"]) else None
  }

  /**
   * The two title lookups disagree: a summary without "title" gives the cluster the title
   * "No Title" while the relabel loop's lookup fails, aborting the whole task.
   */
  lemma TitleLookupsDisagree()
    ensures var summary := map["description" := "x"];
      TitleAsWritten(summary).None? && TitleOf(summary) == "No Title"
  {
  }

  /** Wherever the relabel loop's lookup succeeds it agrees with the defaulted title. */
  lemma TitleLookupsAgreeWhenPresent(summary: map<string, string>)
    ensures TitleAsWritten(summary).Some? ==> TitleAsWritten(summary).value == TitleOf(summary)
  {
  }

  /** `str(row.get("ID", row.get("src", "")))`: the `ID` cell when that column exists, else the category. */
  function SourceIdOf(columns: set<string>, r: Row): string {
    if "ID" in columns then r.idCell else r.src
  }

  /** The rows the task keeps: for each category in turn, its rows if it has at least five. */
  function KeptRows(rows: seq<Row>, cats: seq<string>): (kept: seq<Row>)
    ensures forall k :: 0 <= k < |kept| ==> kept[k].src in cats && |RowsOf(rows, kept[k].src)| >= MinTexts
  {
    if cats == [] then []
    else
      var g := RowsOf(rows, cats[|cats| - 1]);
      var before := KeptRows(rows, cats[..|cats| - 1]);
      assert forall k :: 0 <= k < |before| ==> before[k].src in cats by {
        forall k | 0 <= k < |before| ensures before[k].src in cats {
          assert before[k].src in cats[..|cats| - 1];
        }
      }
      before + (if |g| < MinTexts then [] else g)
  }

  lemma {:induction false} RowsOfMembers(rows: seq<Row>, c: string, r: Row)
    ensures r in RowsOf(rows, c) <==> r in rows && r.src == c
  {
    if rows != [] {
      RowsOfMembers(rows[..|rows| - 1], c, r);
      assert rows == rows[..|rows| - 1] + [rows[|rows| - 1]];
    }
  }

  /**
   * A row survives exactly when its category is among those processed and has at least five rows:
   * smaller categories contribute no reviews.
   */
  lemma {:induction false} KeptRowsMembers(rows: seq<Row>, cats: seq<string>, r: Row)
    ensures r in KeptRows(rows, cats) <==> r in rows && r.src in cats && |RowsOf(rows, r.src)| >= MinTexts
  {
    if cats != [] {
      var init, c := cats[..|cats| - 1], cats[|cats| - 1];
      KeptRowsMembers(rows, init, r);
      RowsOfMembers(rows, c, r);
      assert cats == init + [c];
    }
  }

  /** Over all categories of the table, the kept rows are the rows whose category has at least five rows. */
  lemma KeptRowsOfTable(rows: seq<Row>, r: Row)
    ensures r in KeptRows(rows, Categories(rows)) <==> r in rows && |RowsOf(rows, r.src)| >= MinTexts
  {
    KeptRowsMembers(rows, Categories(rows), r);
  }

  // ---------------------------------------------------------------------------
  // The loops
  // ---------------------------------------------------------------------------

  /** The `cluster_summaries` entry of one top topic: its generated title and description and its size. */
  function SummaryOf(m: Models, category: string, info: seq<TopicInfo>, t: int, globalId: int): ClusterSummary {
    var summary := m.summarize(category, t);
    ClusterSummary(globalId, category, TitleOf(summary), DescriptionOf(summary), CountOf(info, t))
  }

  /** `qwen_results` after the summary loop has visited `ts`: each visited topic to its generated summary. */
  function Generated(m: Models, category: string, ts: seq<int>): map<int, map<string, string>>
    decreases |ts|
  {
    if ts == [] then map[]
    else Generated(m, category, ts[..|ts| - 1])[ts[|ts| - 1] := m.summarize(category, ts[|ts| - 1])]
  }

  /** `qwen_results` holds exactly the visited topics, each with its own generated summary. */
  lemma {:induction false} GeneratedLookup(m: Models, category: string, ts: seq<int>, t: int)
    ensures t in Generated(m, category, ts) <==> t in ts
    ensures t in ts ==> Generated(m, category, ts)[t] == m.summarize(category, t)
    decreases |ts|
  {
    if ts != [] {
      var init := ts[..|ts| - 1];
      GeneratedLookup(m, category, init, t);
      assert ts == init + [ts[|ts| - 1]];
    }
  }

  /** Visiting one more topic adds its generated summary. */
  lemma GeneratedSnoc(m: Models, category: string, top: seq<int>, i: int)
    requires 0 <= i < |top|
    ensures Generated(m, category, top[..i + 1]) == Generated(m, category, top[..i])[top[i] := m.summarize(category, top[i])]
  {
    assert top[..i + 1][..i] == top[..i];
  }

  /** The summary loop of one category: one cluster summary per top topic, numbered from `offset`. */
  method SummarizeTopics(m: Models, category: string, top: seq<int>, info: seq<TopicInfo>, offset: int)
    returns (added: seq<ClusterSummary>, results: map<int, map<string, string>>)
    requires Distinct(top)
    ensures |added| == |top|
    ensures forall i :: 0 <= i < |top| ==> added[i] == SummaryOf(m, category, info, top[i], offset + i)
    ensures results == Generated(m, category, top)
  {
    var remap := Remap(top);
    added, results := [], map[];
    for i := 0 to |top|
      invariant |added| == i
      invariant forall j :: 0 <= j < i ==> added[j] == SummaryOf(m, category, info, top[j], offset + j)
      invariant results == Generated(m, category, top[..i])
    {
      var localId := top[i];
      var summary := m.summarize(category, localId);
      results := results[localId := summary];
      var globalId := remap[localId] + offset;
      added := added + [SummaryOf(m, category, info, localId, globalId)];
      GeneratedSnoc(m, category, top, i);
    }
    assert top[..|top|] == top;
  }

  /**
   * The relabel loop: a top topic becomes its position plus `offset` with its summary's title,
   * any other topic the noise cluster.
   */
  method RelabelTopics(topics: seq<int>, remap: map<int, int>, results: map<int, map<string, string>>, offset: int)
    returns (ids: seq<int>, names: seq<string>)
    requires remap.Keys <= results.Keys
    ensures |ids| == |topics| && |names| == |topics|
    ensures forall k :: 0 <= k < |topics| ==>
      && ids[k] == (if topics[k] in remap then remap[topics[k]] + offset else Noise)
      && names[k] == (if topics[k] in remap then TitleOf(results[topics[k]]) else NoiseTitle)
  {
    ids, names := [], [];
    for k := 0 to |topics|
      invariant |ids| == k && |names| == k
      invariant forall j :: 0 <= j < k ==>
        && ids[j] == (if topics[j] in remap then remap[topics[j]] + offset else Noise)
        && names[j] == (if topics[j] in remap then TitleOf(results[topics[j]]) else NoiseTitle)
    {
      var t := topics[k];
      if t in remap {
        ids := ids + [remap[t] + offset];
        names := names + [TitleOf(results[t])];
      } else {
        ids := ids + [Noise];
        names := names + [NoiseTitle];
      }
    }
  }

  /**
   * A processed frame row is noise with the noise title, or points at a cluster of its own
   * category whose title it carries.
   */
  predicate FrameRowValid(f: FrameRow, summaries: seq<ClusterSummary>) {
    || (f.clusterId == Noise && f.title == NoiseTitle)
    || (&& 0 <= f.clusterId < |summaries|
        && summaries[f.clusterId].category == f.row.src
        && summaries[f.clusterId].title == f.title)
  }

  /** A relabelled topic is noise with the noise title, or a cluster in `added` carrying that cluster's title. */
  predicate Relabelled(id: int, name: string, added: seq<ClusterSummary>, offset: int) {
    || (id == Noise && name == NoiseTitle)
    || (offset <= id < offset + |added| && name == added[id - offset].title)
  }

  /** The processed frame: each row with its new cluster id, its title and its layout point. */
  function MakeFrame(subset: seq<Row>, ids: seq<int>, names: seq<string>, coords: seq<(real, real)>): (frame: seq<FrameRow>)
    requires |ids| == |subset| && |names| == |subset| && |coords| == |subset|
    ensures |frame| == |subset|
    ensures forall j :: 0 <= j < |subset| ==>
      frame[j] == FrameRow(subset[j], ids[j], names[j], coords[j].0, coords[j].1)
  {
    seq(|subset|, j requires 0 <= j < |subset| => FrameRow(subset[j], ids[j], names[j], coords[j].0, coords[j].1))
  }

  // ---------------------------------------------------------------------------
  // What one category contributes
  // ---------------------------------------------------------------------------

  /** The first position of `x` in `s`. */
  function IndexOf(s: seq<int>, x: int): (i: nat)
    requires x in s
    ensures i < |s| && s[i] == x && x !in s[..i]
  {
    if s[0] == x then 0
    else
      var i := 1 + IndexOf(s[1..], x);
      assert s[..i] == [s[0]] + s[1..][..i - 1];
      i
  }

  /** `remap_dict[t]` is the position of `t` among the top topics. */
  lemma RemapIsIndexOf(top: seq<int>, t: int)
    requires Distinct(top) && t in top
    ensures t in Remap(top) && Remap(top)[t] == IndexOf(top, t)
  {
    var i := IndexOf(top, t);
    assert Remap(top)[top[i]] == i;
  }

  /**
   * The global cluster id of topic `t` in a category whose clusters start at `offset`: noise for a
   * topic outside the top topics, otherwise the cluster of that topic.
   */
  function GlobalId(top: seq<int>, t: int, offset: nat): (id: int)
    ensures id == Noise <==> t !in top
    ensures t in top ==> offset <= id < offset + |top| && top[id - offset] == t
  {
    if t in top then IndexOf(top, t) + offset else Noise
  }

  /** The title a row of topic `t` gets: its generated title for a top topic, "Шум" otherwise. */
  function TopicTitle(m: Models, category: string, top: seq<int>, t: int): string {
    if t in top then TitleOf(m.summarize(category, t)) else NoiseTitle
  }

  /** The topic model's fit of one category's texts. */
  function FitOf(m: Models, category: string, subset: seq<Row>): TopicFit {
    m.fit(category, Texts(subset))
  }

  /** The top topics of one category. */
  function TopOf(m: Models, category: string, subset: seq<Row>): seq<int> {
    TopIds(FitOf(m, category, subset).info)
  }

  /** The cluster summaries one category adds, one per top topic, numbered from `offset`. */
  function CategorySummaries(m: Models, category: string, subset: seq<Row>, offset: nat): (added: seq<ClusterSummary>)
    ensures |added| == |TopOf(m, category, subset)|
    ensures forall i :: 0 <= i < |added| ==>
      added[i] == SummaryOf(m, category, FitOf(m, category, subset).info, TopOf(m, category, subset)[i], offset + i)
  {
    var info := FitOf(m, category, subset).info;
    var top := TopIds(info);
    seq(|top|, i requires 0 <= i < |top| => SummaryOf(m, category, info, top[i], offset + i))
  }

  /** The frame one category produces: each row with its topic's global id and title and its layout point. */
  function CategoryFrame(m: Models, category: string, subset: seq<Row>, offset: nat): (frame: seq<FrameRow>)
    requires WellBehaved(m)
    ensures |frame| == |subset|
    ensures forall j :: 0 <= j < |subset| ==>
      var fit, top := FitOf(m, category, subset), TopOf(m, category, subset);
      var coords := m.layout(Texts(subset), NNeighbors(|subset|));
      frame[j] == FrameRow(subset[j], GlobalId(top, fit.topics[j], offset), TopicTitle(m, category, top, fit.topics[j]),
        coords[j].0, coords[j].1)
  {
    var texts := Texts(subset);
    var fit := m.fit(category, texts);
    var top := TopIds(fit.info);
    var coords := m.layout(texts, NNeighbors(|texts|));
    assert |fit.topics| == |texts| && |coords| == |texts|;
    seq(|subset|, j requires 0 <= j < |subset| =>
      FrameRow(subset[j], GlobalId(top, fit.topics[j], offset), TopicTitle(m, category, top, fit.topics[j]),
        coords[j].0, coords[j].1))
  }

  /** Every row of a category's frame is noise or one of the clusters that category adds, with its title. */
  lemma CategoryRelabelled(m: Models, category: string, subset: seq<Row>, offset: nat)
    requires WellBehaved(m)
    ensures var frame, added := CategoryFrame(m, category, subset, offset), CategorySummaries(m, category, subset, offset);
      var fit, top := FitOf(m, category, subset), TopOf(m, category, subset);
      && (forall j :: 0 <= j < |subset| ==>
          frame[j].row == subset[j] && frame[j].clusterId == GlobalId(top, fit.topics[j], offset))
      && (forall j :: 0 <= j < |frame| ==> Relabelled(frame[j].clusterId, frame[j].title, added, offset))
  {
    var frame, added := CategoryFrame(m, category, subset, offset), CategorySummaries(m, category, subset, offset);
    var fit, top := FitOf(m, category, subset), TopOf(m, category, subset);
    forall j | 0 <= j < |frame| ensures Relabelled(frame[j].clusterId, frame[j].title, added, offset) {
      var t := fit.topics[j];
      if t in top {
        var i := IndexOf(top, t);
        assert added[i] == SummaryOf(m, category, fit.info, t, offset + i);
      }
    }
  }

  /** One category's body: its cluster summaries numbered from `offset`, and its relabelled frame. */
  method ProcessCategory(m: Models, category: string, subset: seq<Row>, offset: nat)
    returns (frame: seq<FrameRow>, added: seq<ClusterSummary>)
    requires WellBehaved(m)
    ensures var fit, top := FitOf(m, category, subset), TopOf(m, category, subset);
      && |added| == |top|
      && (forall i :: 0 <= i < |top| ==> added[i] == SummaryOf(m, category, fit.info, top[i], offset + i))
      && |frame| == |subset|
      && (forall j :: 0 <= j < |subset| ==>
          frame[j].row == subset[j] && frame[j].clusterId == GlobalId(top, fit.topics[j], offset))
    ensures forall j :: 0 <= j < |frame| ==> Relabelled(frame[j].clusterId, frame[j].title, added, offset)
    ensures frame == CategoryFrame(m, category, subset, offset)
    ensures added == CategorySummaries(m, category, subset, offset)
  {
    var texts := Texts(subset);
    var fit := m.fit(category, texts);
    assert |fit.topics| == |texts| && DistinctTopics(fit.info);
    var top := TopIds(fit.info);
    RealTopicsDistinct(fit.info);
    var remap := Remap(top);
    var results;
    added, results := SummarizeTopics(m, category, top, fit.info, offset);
    forall t | t in remap ensures t in results && results[t] == m.summarize(category, t) {
      GeneratedLookup(m, category, top, t);
    }
    var ids, names := RelabelTopics(fit.topics, remap, results, offset);
    var k := NNeighbors(|texts|);
    var coords := m.layout(texts, k);
    assert |coords| == |texts|;
    frame := MakeFrame(subset, ids, names, coords);
    var expected := CategoryFrame(m, category, subset, offset);
    forall j | 0 <= j < |frame|
      ensures frame[j] == expected[j]
    {
      var t := fit.topics[j];
      if t in top {
        RemapIsIndexOf(top, t);
      }
    }
    assert frame == expected;
    assert added == CategorySummaries(m, category, subset, offset);
    CategoryRelabelled(m, category, subset, offset);
  }

  /** Appending one category's frame and summaries keeps every frame row pointing at its summary. */
  lemma FramesStayValid(frames: seq<FrameRow>, before: seq<ClusterSummary>, frame: seq<FrameRow>,
                        added: seq<ClusterSummary>, category: string)
    requires forall k :: 0 <= k < |frames| ==> FrameRowValid(frames[k], before)
    requires forall j :: 0 <= j < |frame| ==> frame[j].row.src == category
    requires forall i :: 0 <= i < |added| ==> added[i].category == category
    requires forall j :: 0 <= j < |frame| ==> Relabelled(frame[j].clusterId, frame[j].title, added, |before|)
    ensures forall k :: 0 <= k < |frames + frame| ==> FrameRowValid((frames + frame)[k], before + added)
  {
    var all, summaries := frames + frame, before + added;
    forall k | 0 <= k < |all| ensures FrameRowValid(all[k], summaries) {
      if k < |frames| {
        assert all[k] == frames[k];
        assert FrameRowValid(frames[k], before);
      } else {
        var f := frame[k - |frames|];
        assert all[k] == f;
        if f.clusterId != Noise {
          assert summaries[f.clusterId] == added[f.clusterId - |before|];
        }
      }
    }
  }

  // ---------------------------------------------------------------------------
  // All categories
  // ---------------------------------------------------------------------------

  /** `cluster_summaries` after the categories `cats`: each kept category's summaries at the running offset. */
  function Summaries(m: Models, rows: seq<Row>, cats: seq<string>): seq<ClusterSummary>
    decreases |cats|
  {
    if cats == [] then []
    else
      var before := Summaries(m, rows, cats[..|cats| - 1]);
      var c := cats[|cats| - 1];
      var subset := RowsOf(rows, c);
      if |subset| < MinTexts then before else before + CategorySummaries(m, c, subset, |before|)
  }

  /** The concatenated processed frames after the categories `cats`. */
  function Frames(m: Models, rows: seq<Row>, cats: seq<string>): seq<FrameRow>
    requires WellBehaved(m)
    decreases |cats|
  {
    if cats == [] then []
    else
      var init := cats[..|cats| - 1];
      var c := cats[|cats| - 1];
      var subset := RowsOf(rows, c);
      Frames(m, rows, init)
        + (if |subset| < MinTexts then [] else CategoryFrame(m, c, subset, |Summaries(m, rows, init)|))
  }

  /** The frames hold exactly the kept rows, in order. */
  lemma {:induction false} FramesRows(m: Models, rows: seq<Row>, cats: seq<string>)
    requires WellBehaved(m)
    ensures |Frames(m, rows, cats)| == |KeptRows(rows, cats)|
    ensures forall k :: 0 <= k < |KeptRows(rows, cats)| ==> Frames(m, rows, cats)[k].row == KeptRows(rows, cats)[k]
    decreases |cats|
  {
    if cats != [] {
      FramesRows(m, rows, cats[..|cats| - 1]);
    }
  }

  /** Global ids run 0, 1, 2, ... and every cluster belongs to a processed category with at least five rows. */
  lemma {:induction false} SummariesNumbered(m: Models, rows: seq<Row>, cats: seq<string>)
    ensures forall j :: 0 <= j < |Summaries(m, rows, cats)| ==>
      var s := Summaries(m, rows, cats)[j];
      s.globalId == j && s.category in cats && |RowsOf(rows, s.category)| >= MinTexts
    decreases |cats|
  {
    if cats != [] {
      var init := cats[..|cats| - 1];
      SummariesNumbered(m, rows, init);
      assert cats == init + [cats[|cats| - 1]];
    }
  }

  /** The number of top topics over the categories `cats` that have at least five rows. */
  function TopicCount(m: Models, rows: seq<Row>, cats: seq<string>): nat
  {
    if cats == [] then 0
    else
      var subset := RowsOf(rows, cats[0]);
      (if |subset| < MinTexts then 0 else |TopOf(m, cats[0], subset)|) + TopicCount(m, rows, cats[1..])
  }

  /** Adding one category at the end adds its top topics when it has at least five rows. */
  lemma {:induction false} TopicCountSnoc(m: Models, rows: seq<Row>, cats: seq<string>, c: string)
    ensures TopicCount(m, rows, cats + [c])
      == TopicCount(m, rows, cats) + (if |RowsOf(rows, c)| < MinTexts then 0 else |TopOf(m, c, RowsOf(rows, c))|)
    decreases |cats|
  {
    if cats != [] {
      assert (cats + [c])[1..] == cats[1..] + [c];
      TopicCountSnoc(m, rows, cats[1..], c);
    }
  }

  /** Exactly one cluster summary per top topic of each category with at least five rows. */
  lemma {:induction false} SummariesCount(m: Models, rows: seq<Row>, cats: seq<string>)
    ensures |Summaries(m, rows, cats)| == TopicCount(m, rows, cats)
    decreases |cats|
  {
    if cats != [] {
      var init, c := cats[..|cats| - 1], cats[|cats| - 1];
      SummariesCount(m, rows, init);
      TopicCountSnoc(m, rows, init, c);
      assert init + [c] == cats;
    }
  }

  /** Every frame row is noise or points at a cluster of its own category carrying that cluster's title. */
  lemma {:induction false} FramesValid(m: Models, rows: seq<Row>, cats: seq<string>)
    requires WellBehaved(m)
    ensures forall k :: 0 <= k < |Frames(m, rows, cats)| ==> FrameRowValid(Frames(m, rows, cats)[k], Summaries(m, rows, cats))
    decreases |cats|
  {
    if cats != [] {
      var init, c := cats[..|cats| - 1], cats[|cats| - 1];
      var subset := RowsOf(rows, c);
      FramesValid(m, rows, init);
      if |subset| >= MinTexts {
        var off := |Summaries(m, rows, init)|;
        CategoryRelabelled(m, c, subset, off);
        FramesStayValid(Frames(m, rows, init), Summaries(m, rows, init),
          CategoryFrame(m, c, subset, off), CategorySummaries(m, c, subset, off), c);
      }
    }
  }

  lemma {:induction false} SummariesPrefix(m: Models, rows: seq<Row>, cats: seq<string>, n: nat)
    requires n <= |cats|
    ensures Summaries(m, rows, cats[..n]) <= Summaries(m, rows, cats)
    decreases |cats|
  {
    if n < |cats| {
      var init := cats[..|cats| - 1];
      SummariesPrefix(m, rows, init, n);
      assert init[..n] == cats[..n];
    } else {
      assert cats[..n] == cats;
    }
  }

  lemma {:induction false} FramesPrefix(m: Models, rows: seq<Row>, cats: seq<string>, n: nat)
    requires WellBehaved(m) && n <= |cats|
    ensures Frames(m, rows, cats[..n]) <= Frames(m, rows, cats)
    decreases |cats|
  {
    if n < |cats| {
      var init := cats[..|cats| - 1];
      FramesPrefix(m, rows, init, n);
      assert init[..n] == cats[..n];
    } else {
      assert cats[..n] == cats;
    }
  }

  /** Processing kept category `cats[ci]` appends its frame and its summaries after those of the earlier categories. */
  lemma KeptCategoryStep(m: Models, rows: seq<Row>, cats: seq<string>, ci: nat)
    requires WellBehaved(m)
    requires ci < |cats| && |RowsOf(rows, cats[ci])| >= MinTexts
    ensures var c, subset, off := cats[ci], RowsOf(rows, cats[ci]), |Summaries(m, rows, cats[..ci])|;
      && |Frames(m, rows, cats[..ci])| == |KeptRows(rows, cats[..ci])|
      && Frames(m, rows, cats[..ci]) + CategoryFrame(m, c, subset, off) <= Frames(m, rows, cats)
      && Summaries(m, rows, cats[..ci]) + CategorySummaries(m, c, subset, off) <= Summaries(m, rows, cats)
  {
    var c, subset := cats[ci], RowsOf(rows, cats[ci]);
    var prefix := cats[..ci + 1];
    assert prefix[..ci] == cats[..ci] && prefix[ci] == c;
    FramesRows(m, rows, cats[..ci]);
    SummariesPrefix(m, rows, cats, ci + 1);
    FramesPrefix(m, rows, cats, ci + 1);
  }

  /** An element of a part appended after `pre` sits at its offset past `pre` in anything the result prefixes. */
  lemma AppendedAt<T>(pre: seq<T>, part: seq<T>, whole: seq<T>, j: nat)
    requires pre + part <= whole && j < |part|
    ensures |pre| + j < |whole| && whole[|pre| + j] == part[j]
  {
    assert (pre + part)[|pre| + j] == part[j];
  }

  /**
   * Row `j` of kept category `cats[ci]` sits in the frames after the kept rows of the earlier
   * categories, as row `j` of that category's frame: with the global id of its topic at the running
   * offset and its layout point.
   */
  lemma KeptRowFrame(m: Models, rows: seq<Row>, cats: seq<string>, ci: nat, j: nat)
    requires WellBehaved(m)
    requires ci < |cats| && |RowsOf(rows, cats[ci])| >= MinTexts && j < |RowsOf(rows, cats[ci])|
    ensures var base, off := |KeptRows(rows, cats[..ci])|, |Summaries(m, rows, cats[..ci])|;
      && base + j < |Frames(m, rows, cats)|
      && Frames(m, rows, cats)[base + j] == CategoryFrame(m, cats[ci], RowsOf(rows, cats[ci]), off)[j]
  {
    KeptCategoryStep(m, rows, cats, ci);
    var off := |Summaries(m, rows, cats[..ci])|;
    AppendedAt(Frames(m, rows, cats[..ci]), CategoryFrame(m, cats[ci], RowsOf(rows, cats[ci]), off), Frames(m, rows, cats), j);
  }

  /**
   * The summary of top topic `i` of kept category `cats[ci]` sits in `cluster_summaries` at the
   * running offset plus `i`.
   */
  lemma KeptTopicSummary(m: Models, rows: seq<Row>, cats: seq<string>, ci: nat, i: nat)
    requires WellBehaved(m)
    requires ci < |cats| && |RowsOf(rows, cats[ci])| >= MinTexts && i < |TopOf(m, cats[ci], RowsOf(rows, cats[ci]))|
    ensures var off := |Summaries(m, rows, cats[..ci])|;
      && off + i < |Summaries(m, rows, cats)|
      && Summaries(m, rows, cats)[off + i] == CategorySummaries(m, cats[ci], RowsOf(rows, cats[ci]), off)[i]
  {
    KeptCategoryStep(m, rows, cats, ci);
    var off := |Summaries(m, rows, cats[..ci])|;
    AppendedAt(Summaries(m, rows, cats[..ci]), CategorySummaries(m, cats[ci], RowsOf(rows, cats[ci]), off), Summaries(m, rows, cats), i);
  }

  /** The category loop: the frames of the kept categories and the numbered cluster summaries. */
  method ProcessCategories(m: Models, rows: seq<Row>, cats: seq<string>)
    returns (frames: seq<FrameRow>, summaries: seq<ClusterSummary>)
    requires WellBehaved(m)
    ensures frames == Frames(m, rows, cats) && summaries == Summaries(m, rows, cats)
    ensures |frames| == |KeptRows(rows, cats)|
    ensures forall k :: 0 <= k < |frames| ==> frames[k].row == KeptRows(rows, cats)[k]
    ensures forall j :: 0 <= j < |summaries| ==> summaries[j].globalId == j
    ensures forall k :: 0 <= k < |frames| ==> FrameRowValid(frames[k], summaries)
    ensures forall j :: 0 <= j < |summaries| ==>
      summaries[j].category in cats && |RowsOf(rows, summaries[j].category)| >= MinTexts
  {
    frames, summaries := [], [];
    var topicOffset := 0;
    for ci := 0 to |cats|
      invariant topicOffset == |summaries|
      invariant frames == Frames(m, rows, cats[..ci])
      invariant summaries == Summaries(m, rows, cats[..ci])
    {
      assert cats[..ci + 1][..ci] == cats[..ci];
      var category := cats[ci];
      var subset := RowsOf(rows, category);
      if |subset| < MinTexts {
        continue;
      }
      var frame, added := ProcessCategory(m, category, subset, topicOffset);
      summaries := summaries + added;
      frames := frames + frame;
      topicOffset := topicOffset + |added|;
    }
    assert cats[..|cats|] == cats;
    FramesRows(m, rows, cats);
    SummariesNumbered(m, rows, cats);
    FramesValid(m, rows, cats);
  }

  /** The `iterrows` loop over the cleaned texts: one review per frame row, with its text's class. */
  method ClassifyRows(m: Models, columns: set<string>, frames: seq<FrameRow>, cleaned: seq<string>)
    returns (reviews: seq<OutReview>)
    requires |cleaned| == |frames|
    ensures |reviews| == |frames|
    ensures forall i :: 0 <= i < |frames| ==>
      && reviews[i].text == frames[i].row.text
      && reviews[i].sourceId == SourceIdOf(columns, frames[i].row)
      && reviews[i].sentiment == SentimentOfLabel(m.classify(cleaned[i]).0)
      && reviews[i].confidence == m.classify(cleaned[i]).1
      && reviews[i].clusterId == frames[i].clusterId
      && reviews[i].x == frames[i].x && reviews[i].y == frames[i].y
  {
    reviews := [];
    for k := 0 to |frames|
      invariant |reviews| == k
      invariant forall i :: 0 <= i < k ==>
        && reviews[i].text == frames[i].row.text
        && reviews[i].sourceId == SourceIdOf(columns, frames[i].row)
        && reviews[i].sentiment == SentimentOfLabel(m.classify(cleaned[i]).0)
        && reviews[i].confidence == m.classify(cleaned[i]).1
        && reviews[i].clusterId == frames[i].clusterId
        && reviews[i].x == frames[i].x && reviews[i].y == frames[i].y
    {
      var f := frames[k];
      var prediction := m.classify(cleaned[k]);
      reviews := reviews + [OutReview(SourceIdOf(columns, f.row), f.row.text, SentimentOfLabel(prediction.0),
        prediction.1, f.clusterId, f.x, f.y)];
    }
  }

  /** `batch_clean_text` of the concatenated frame's texts, then the `iterrows` loop. */
  method BuildReviews(m: Models, columns: set<string>, frames: seq<FrameRow>) returns (reviews: seq<OutReview>)
    ensures |reviews| == |frames|
    ensures forall i :: 0 <= i < |frames| ==>
      && reviews[i].text == frames[i].row.text
      && reviews[i].sourceId == SourceIdOf(columns, frames[i].row)
      && reviews[i].sentiment == SentimentOfLabel(m.classify(CleanText.Clean(frames[i].row.text)).0)
      && reviews[i].confidence == m.classify(CleanText.Clean(frames[i].row.text)).1
      && reviews[i].clusterId == frames[i].clusterId
      && reviews[i].x == frames[i].x && reviews[i].y == frames[i].y
  {
    var texts := seq(|frames|, k requires 0 <= k < |frames| => frames[k].row.text);
    var cleaned := CleanText.BatchClean(texts);
    reviews := ClassifyRows(m, columns, frames, cleaned);
    forall i | 0 <= i < |frames| ensures cleaned[i] == CleanText.Clean(frames[i].row.text) {
      assert texts[i] == frames[i].row.text;
    }
  }

  /** The final loop over `cluster_summaries`. */
  method BuildClusters(summaries: seq<ClusterSummary>) returns (clusters: seq<OutCluster>)
    ensures |clusters| == |summaries|
    ensures forall i :: 0 <= i < |summaries| ==>
      clusters[i] == OutCluster(summaries[i].globalId, summaries[i].title, summaries[i].description)
  {
    clusters := [];
    for j := 0 to |summaries|
      invariant |clusters| == j
      invariant forall i :: 0 <= i < j ==> clusters[i] == OutCluster(summaries[i].globalId, summaries[i].title, summaries[i].description)
    {
      clusters := clusters + [OutCluster(summaries[j].globalId, summaries[j].title, summaries[j].description)];
    }
  }

  /**
   * The review at the position of row `j` of kept category `cats[ci]` carries the global id of that
   * row's topic (noise iff the topic is not one of the category's top topics) and that row's point
   * of the category's layout.
   */
  predicate ReviewFollowsTopic(m: Models, rows: seq<Row>, cats: seq<string>, ci: nat, j: nat, reviews: seq<OutReview>)
    requires WellBehaved(m)
    requires ci < |cats| && j < |RowsOf(rows, cats[ci])|
  {
    var subset := RowsOf(rows, cats[ci]);
    var fit := FitOf(m, cats[ci], subset);
    var coords := m.layout(Texts(subset), NNeighbors(|subset|));
    var base := |KeptRows(rows, cats[..ci])|;
    && base + j < |reviews|
    && reviews[base + j].text == subset[j].text
    && reviews[base + j].clusterId == GlobalId(TopOf(m, cats[ci], subset), fit.topics[j], |Summaries(m, rows, cats[..ci])|)
    && reviews[base + j].x == coords[j].0 && reviews[base + j].y == coords[j].1
  }

  /** The cluster of top topic `i` of kept category `cats[ci]`: its global id, generated title and description. */
  predicate ClusterFollowsTopic(m: Models, rows: seq<Row>, cats: seq<string>, ci: nat, i: nat, clusters: seq<OutCluster>)
    requires ci < |cats| && i < |TopOf(m, cats[ci], RowsOf(rows, cats[ci]))|
  {
    var summary := m.summarize(cats[ci], TopOf(m, cats[ci], RowsOf(rows, cats[ci]))[i]);
    var id := |Summaries(m, rows, cats[..ci])| + i;
    id < |clusters| && clusters[id] == OutCluster(id, TitleOf(summary), DescriptionOf(summary))
  }

  /** The output follows the topic model in every kept category. */
  predicate FollowsTopics(m: Models, rows: seq<Row>, cats: seq<string>, out: TaskOutput)
    requires WellBehaved(m)
  {
    && (forall ci: nat, j: nat :: ci < |cats| && |RowsOf(rows, cats[ci])| >= MinTexts && j < |RowsOf(rows, cats[ci])| ==>
        ReviewFollowsTopic(m, rows, cats, ci, j, out.reviews))
    && (forall ci: nat, i: nat :: ci < |cats| && |RowsOf(rows, cats[ci])| >= MinTexts && i < |TopOf(m, cats[ci], RowsOf(rows, cats[ci]))| ==>
        ClusterFollowsTopic(m, rows, cats, ci, i, out.clusters))
  }

  /** A review copied from the frame row of row `j` of kept category `cats[ci]` follows that row's topic. */
  lemma ReviewOfKeptRow(m: Models, rows: seq<Row>, cats: seq<string>, ci: nat, j: nat, reviews: seq<OutReview>)
    requires WellBehaved(m)
    requires ci < |cats| && |RowsOf(rows, cats[ci])| >= MinTexts && j < |RowsOf(rows, cats[ci])|
    requires |reviews| == |Frames(m, rows, cats)|
    requires var k := |KeptRows(rows, cats[..ci])| + j;
      k < |reviews| ==>
        var f := Frames(m, rows, cats)[k];
        reviews[k].text == f.row.text && reviews[k].clusterId == f.clusterId && reviews[k].x == f.x && reviews[k].y == f.y
    ensures ReviewFollowsTopic(m, rows, cats, ci, j, reviews)
  {
    KeptRowFrame(m, rows, cats, ci, j);
  }

  /** A cluster copied from the summary of top topic `i` of kept category `cats[ci]` follows that topic. */
  lemma ClusterOfKeptTopic(m: Models, rows: seq<Row>, cats: seq<string>, ci: nat, i: nat, clusters: seq<OutCluster>)
    requires WellBehaved(m)
    requires ci < |cats| && |RowsOf(rows, cats[ci])| >= MinTexts && i < |TopOf(m, cats[ci], RowsOf(rows, cats[ci]))|
    requires |clusters| == |Summaries(m, rows, cats)|
    requires var id := |Summaries(m, rows, cats[..ci])| + i;
      id < |clusters| ==>
        var s := Summaries(m, rows, cats)[id];
        clusters[id] == OutCluster(s.globalId, s.title, s.description)
    ensures ClusterFollowsTopic(m, rows, cats, ci, i, clusters)
  {
    KeptTopicSummary(m, rows, cats, ci, i);
  }

  /** Reviews and clusters built from the frames and summaries of the category loop follow the topic model. */
  lemma TaskFollowsTopics(m: Models, rows: seq<Row>, cats: seq<string>, out: TaskOutput)
    requires WellBehaved(m)
    requires |out.reviews| == |Frames(m, rows, cats)|
    requires forall i :: 0 <= i < |out.reviews| ==>
      var f := Frames(m, rows, cats)[i];
      out.reviews[i].text == f.row.text && out.reviews[i].clusterId == f.clusterId && out.reviews[i].x == f.x && out.reviews[i].y == f.y
    requires |out.clusters| == |Summaries(m, rows, cats)|
    requires forall j :: 0 <= j < |out.clusters| ==>
      var s := Summaries(m, rows, cats)[j]; out.clusters[j] == OutCluster(s.globalId, s.title, s.description)
    ensures FollowsTopics(m, rows, cats, out)
  {
    forall ci: nat, j: nat | ci < |cats| && |RowsOf(rows, cats[ci])| >= MinTexts && j < |RowsOf(rows, cats[ci])|
      ensures ReviewFollowsTopic(m, rows, cats, ci, j, out.reviews)
    {
      var k := |KeptRows(rows, cats[..ci])| + j;
      assert k < |out.reviews| ==> out.reviews[k].text == Frames(m, rows, cats)[k].row.text;
      ReviewOfKeptRow(m, rows, cats, ci, j, out.reviews);
    }
    forall ci: nat, i: nat | ci < |cats| && |RowsOf(rows, cats[ci])| >= MinTexts && i < |TopOf(m, cats[ci], RowsOf(rows, cats[ci]))|
      ensures ClusterFollowsTopic(m, rows, cats, ci, i, out.clusters)
    {
      var id := |Summaries(m, rows, cats[..ci])| + i;
      assert id < |out.clusters| ==> out.clusters[id].id == Summaries(m, rows, cats)[id].globalId;
      ClusterOfKeptTopic(m, rows, cats, ci, i, out.clusters);
    }
  }

  /**
   * `run_clustering_task` from the parsed CSV to the result: an error without the `text` or `src`
   * column; otherwise the reviews of the kept categories among the first 500 rows, each with the
   * classifier's sentiment and confidence of its cleaned text and its topic's cluster, and one
   * cluster per top topic of each kept category, numbered 0, 1, 2, ...
   */
  method RunClusteringTask(table: Table, m: Models) returns (res: Result<TaskOutput, string>)
    requires WellBehaved(m)
    ensures !("text" in table.columns && "src" in table.columns) <==> res == Failure(MissingColumns)
    ensures res.Success? <==> "text" in table.columns && "src" in table.columns
    ensures res.Success? ==>
      var out := res.value;
      var rows := Truncate(table.rows);
      var kept := KeptRows(rows, Categories(rows));
      && |out.reviews| == |kept|
      && (forall i :: 0 <= i < |kept| ==>
          && out.reviews[i].text == kept[i].text
          && out.reviews[i].sourceId == SourceIdOf(table.columns, kept[i])
          && out.reviews[i].sentiment == SentimentOfLabel(m.classify(CleanText.Clean(kept[i].text)).0)
          && out.reviews[i].confidence == m.classify(CleanText.Clean(kept[i].text)).1)
      && |out.clusters| == TopicCount(m, rows, Categories(rows))
      && (forall j :: 0 <= j < |out.clusters| ==> out.clusters[j].id == j)
      && (forall i :: 0 <= i < |out.reviews| ==>
          out.reviews[i].clusterId == Noise || 0 <= out.reviews[i].clusterId < |out.clusters|)
      && FollowsTopics(m, rows, Categories(rows), out)
  {
    if !("text" in table.columns && "src" in table.columns) {
      return Failure(MissingColumns);
    }
    var rows := Truncate(table.rows);
    var cats := Categories(rows);
    var frames, summaries := ProcessCategories(m, rows, cats);
    var reviews := BuildReviews(m, table.columns, frames);
    var clusters := BuildClusters(summaries);
    TaskFollowsTopics(m, rows, cats, TaskOutput(reviews, clusters));
    SummariesCount(m, rows, cats);
    return Success(TaskOutput(reviews, clusters));
  }
}
