/**
 * `AutomatedProcessDiscoveryOptimizer`: derives a model name from the log's path, loads
 * the log, and hands the search to the strategy its tag names. Loading the log and the
 * searches themselves are outside this model: the load is given as its answer, and a
 * search as the result it returns.
 */
module Optimizer {
  import opened Wrappers

  const MAXIT: int := 10
  const NEIGHBOURHOOD: int := 5
  const TIMEOUT: int := 300000

  /** The strategy tags: the first four search BPMN models, the last four process trees. */
  datatype MetaOpt = RLS | ILS | TS | SA | RLSTree | ILSTree | TSTree | SATree

  /** The search classes a tag can select. */
  datatype Strategy = Repeated | Iterated | Tabu | Annealing

  /** `lastIndexOf(c)`: the last position of c, or -1. */
  function LastIndexOf(s: string, c: char): (i: int)
    ensures -1 <= i < |s|
    ensures i >= 0 ==> s[i] == c
    ensures forall j :: i < j < |s| ==> s[j] != c
  {
    if s == [] then -1
    else if s[|s| - 1] == c then |s| - 1
    else LastIndexOf(s[..|s| - 1], c)
  }

  /** `indexOf(c)`: the first position of c, or -1. */
  function IndexOf(s: string, c: char): (i: int)
    ensures -1 <= i < |s|
    ensures i >= 0 ==> s[i] == c
    ensures forall j :: 0 <= j < |s| && (i == -1 || j < i) ==> s[j] != c
  {
    if s == [] then -1
    else if s[0] == c then 0
    else
      var i := IndexOf(s[1..], c);
      assert forall j :: 1 <= j < |s| ==> s[j] == s[1..][j - 1];
      if i == -1 then -1 else i + 1
  }

  /** t occurs in s at position i. */
  predicate OccursAt(s: string, t: string, i: int) {
    0 <= i <= |s| - |t| && s[i..i + |t|] == t
  }

  /** `s.contains(t)`. */
  predicate Contains(s: string, t: string) {
    exists i :: 0 <= i <= |s| - |t| && OccursAt(s, t, i)
  }

  /** The file name: everything after the last '/'. */
  function FileName(logPath: string): (f: string)
    ensures '/' !in f
  {
    var i := LastIndexOf(logPath, '/');
    logPath[i + 1..]
  }

  /** The path is a directory part, empty or ending in '/', followed by the file name. */
  lemma DirectoryPart(logPath: string) returns (dir: string)
    ensures dir == [] || dir[|dir| - 1] == '/'
    ensures dir + FileName(logPath) == logPath
  {
    var i := LastIndexOf(logPath, '/');
    dir := logPath[..i + 1];
    assert FileName(logPath) == logPath[i + 1..];
    if i >= 0 {
      assert dir[i] == logPath[i];
    }
  }

  /** The model name `init` derives: the file name up to its first '.', prefixed with
      "PUB" unless it contains "PRT"; `substring(0, -1)` throws when there is no '.'. */
  function ModelName(logPath: string): (r: Result<string>)
    ensures r.Err? <==> '.' !in FileName(logPath)
    ensures r.Err? ==> r == Err(StringIndexOutOfBounds)
  {
    var file := FileName(logPath);
    var dot := IndexOf(file, '.');
    if dot == -1 then Err(StringIndexOutOfBounds)
    else
      var base := file[..dot];
      Ok(if Contains(base, "PRT") then base else "PUB" + base)
  }

  /** How a path is split into a directory part (empty or ending in '/'), a stem without
      '/' and '.', a '.', and a rest without '/'. */
  ghost predicate StemSplit(logPath: string, dir: string, stem: string, rest: string) {
    logPath == dir + stem + "." + rest && (dir == [] || dir[|dir| - 1] == '/') &&
    '.' !in stem && '/' !in stem && '/' !in rest
  }

  /** The name derived from a stem. */
  function Marked(stem: string): string {
    if Contains(stem, "PRT") then stem else "PUB" + stem
  }

  /** A name without '/' splits at its first '.' into a stem and a rest. */
  lemma SplitAtDot(file: string)
    requires '/' !in file && '.' in file
    ensures var dot := IndexOf(file, '.');
      0 <= dot && file == file[..dot] + "." + file[dot + 1..] &&
      '.' !in file[..dot] && '/' !in file[..dot] && '/' !in file[dot + 1..]
  {
    var dot := IndexOf(file, '.');
    assert file == file[..dot] + "." + file[dot + 1..];
    assert forall c :: c in file[..dot] ==> c in file;
    assert forall c :: c in file[dot + 1..] ==> c in file;
  }

  /** A directory part followed by a file name that holds a '.' splits at that '.'. */
  lemma StemOf(dir: string, file: string) returns (stem: string, rest: string)
    requires '/' !in file && '.' in file
    requires dir == [] || dir[|dir| - 1] == '/'
    ensures stem == file[..IndexOf(file, '.')]
    ensures StemSplit(dir + file, dir, stem, rest)
  {
    SplitAtDot(file);
    var dot := IndexOf(file, '.');
    stem, rest := file[..dot], file[dot + 1..];
    assert dir + file == dir + (stem + "." + rest);
  }

  /** The path splits into a directory part, the file name's stem up to its first '.', and
      the rest. */
  lemma FileStem(logPath: string) returns (dir: string, stem: string, rest: string)
    requires '.' in FileName(logPath)
    ensures stem == FileName(logPath)[..IndexOf(FileName(logPath), '.')]
    ensures StemSplit(logPath, dir, stem, rest)
  {
    dir := DirectoryPart(logPath);
    stem, rest := StemOf(dir, FileName(logPath));
  }

  /** The derived name is the marked stem of the file: the path is a directory part, the
      stem, '.', and a rest, as StemSplit says. */
  lemma ModelNameStem(logPath: string)
    requires ModelName(logPath).Ok?
    ensures exists dir, stem, rest {:trigger StemSplit(logPath, dir, stem, rest)} ::
      StemSplit(logPath, dir, stem, rest) && ModelName(logPath).value == Marked(stem)
  {
    var dir, stem, rest := FileStem(logPath);
    assert ModelName(logPath).value == Marked(stem);
    assert StemSplit(logPath, dir, stem, rest);
  }

  /** Every derived name carries one of the two markers. */
  lemma ModelNameMarked(logPath: string)
    requires ModelName(logPath).Ok?
    ensures var name := ModelName(logPath).value;
      Contains(name, "PRT") || (|name| >= 3 && name[..3] == "PUB")
  {
  }

  /** The class `searchOptimalBPMN` runs for a tag; it ignores the tree tags. */
  function BpmnStrategy(m: MetaOpt): (s: Option<Strategy>)
    ensures s.Some? <==> m in {RLS, ILS, TS, SA}
  {
    match m
    case RLS => Some(Repeated)
    case ILS => Some(Iterated)
    case TS => Some(Tabu)
    case SA => Some(Annealing)
    case _ => None
  }

  /** The class `searchOptimalTree` runs for a tag; it ignores the BPMN tags. */
  function TreeStrategy(m: MetaOpt): (s: Option<Strategy>)
    ensures s.Some? <==> m in {RLSTree, ILSTree, TSTree, SATree}
  {
    match m
    case RLSTree => Some(Repeated)
    case ILSTree => Some(Iterated)
    case TSTree => Some(Tabu)
    case SATree => Some(Annealing)
    case _ => None
  }

  /** The tree tag of a strategy. */
  function TreeTag(s: Strategy): MetaOpt {
    match s
    case Repeated => RLSTree
    case Iterated => ILSTree
    case Tabu => TSTree
    case Annealing => SATree
  }

  /** Every tag is handled by exactly one of the two searches, and each strategy has one
      BPMN tag and one tree tag. */
  lemma DispatchPartition(m: MetaOpt)
    ensures BpmnStrategy(m).Some? != TreeStrategy(m).Some?
    ensures BpmnStrategy(m).Some? ==> TreeStrategy(TreeTag(BpmnStrategy(m).value)) == BpmnStrategy(m)
    ensures TreeStrategy(m).Some? ==> TreeTag(TreeStrategy(m).value) == m
  {
  }

  /** The miner bound to the log the search mines from. */
  datatype MinerProxy<Tag, L> = MinerProxy(tag: Tag, log: Option<L>)

  /** A call `searchOptimalSolution`/`searchOptimalTree(slog, order, MAXIT, NEIGHBOURHOOD,
      TIMEOUT, modelName)` on a new search of the given class. */
  datatype SearchCall<Tag, L> = SearchCall(strategy: Strategy, proxy: Option<MinerProxy<Tag, L>>, log: Option<L>,
                                           order: int, maxit: int, neighbourhood: int, timeout: int, modelName: Option<string>)

  class AutomatedProcessDiscoveryOptimizer<Tag, L, B, T> {
    var minerProxy: Option<MinerProxy<Tag, L>>
    var order: int
    var metaheuristics: MetaOpt
    var miner: Tag
    var slog: Option<L>
    var bpmn: Option<B>
    var tree: Option<T>
    var modelName: Option<string>
    var explorer: Option<Strategy>

    constructor (order: int, metaheuristics: MetaOpt, mtag: Tag)
      ensures this.order == order && this.metaheuristics == metaheuristics && miner == mtag
      ensures minerProxy.None? && slog.None? && bpmn.None? && tree.None? && modelName.None? && explorer.None?
    {
      this.order, this.metaheuristics, miner := order, metaheuristics, mtag;
      minerProxy, slog, bpmn, tree, modelName, explorer := None, None, None, None, None, None;
    }

    /** `init(logPath)`, with the loaded log given: None when loading throws. A path whose
        file name has no '.' throws before the load, with `modelName` already cut down to
        the file name. */
    method Init(logPath: string, loaded: Option<L>) returns (r: Result<bool>)
      modifies this`modelName, this`slog, this`minerProxy
      ensures ModelName(logPath).Err? ==>
        r == Err(StringIndexOutOfBounds) && modelName == Some(FileName(logPath)) &&
        slog == old(slog) && minerProxy == old(minerProxy)
      ensures ModelName(logPath).Ok? && loaded.None? ==>
        r == Ok(false) && modelName == Some(ModelName(logPath).value) && slog == None && minerProxy == old(minerProxy)
      ensures ModelName(logPath).Ok? && loaded.Some? ==>
        r == Ok(true) && modelName == Some(ModelName(logPath).value) && slog == loaded &&
        minerProxy == Some(MinerProxy(miner, loaded))
    {
      modelName := Some(FileName(logPath));
      var name := ModelName(logPath);
      if name.Err? {
        return Err(name.error);
      }
      modelName := Some(name.value);
      if loaded.None? {
        slog := None;
        return Ok(false);
      }
      slog := loaded;
      minerProxy := Some(MinerProxy(miner, slog));
      r := Ok(true);
    }

    /** `searchOptimalBPMN()`, with the chosen search's result given. A tree tag leaves
        the explorer and the result as they were. */
    method SearchOptimalBPMN(found: B) returns (call: Option<SearchCall<Tag, L>>, r: Option<B>)
      modifies this`explorer, this`bpmn
      ensures call.Some? <==> BpmnStrategy(metaheuristics).Some?
      ensures call.Some? ==> call.value == SearchCall(BpmnStrategy(metaheuristics).value, minerProxy, slog, order,
                                                      MAXIT, NEIGHBOURHOOD, TIMEOUT, modelName)
      ensures call.Some? ==> explorer == BpmnStrategy(metaheuristics) && bpmn == Some(found)
      ensures call.None? ==> explorer == old(explorer) && bpmn == old(bpmn)
      ensures r == bpmn
    {
      call := None;
      match metaheuristics {
        case RLS =>
          explorer := Some(Repeated);
          call := Some(SearchCall(Repeated, minerProxy, slog, order, MAXIT, NEIGHBOURHOOD, TIMEOUT, modelName));
          bpmn := Some(found);
        case ILS =>
          explorer := Some(Iterated);
          call := Some(SearchCall(Iterated, minerProxy, slog, order, MAXIT, NEIGHBOURHOOD, TIMEOUT, modelName));
          bpmn := Some(found);
        case TS =>
          explorer := Some(Tabu);
          call := Some(SearchCall(Tabu, minerProxy, slog, order, MAXIT, NEIGHBOURHOOD, TIMEOUT, modelName));
          bpmn := Some(found);
        case SA =>
          explorer := Some(Annealing);
          call := Some(SearchCall(Annealing, minerProxy, slog, order, MAXIT, NEIGHBOURHOOD, TIMEOUT, modelName));
          bpmn := Some(found);
        case _ =>
      }
      r := bpmn;
    }

    /** `searchOptimalTree()`, with the chosen search's result given; the conversion to a
        process tree and the PTML export that follow are outside this model. A BPMN tag
        leaves the explorer and the result as they were. */
    method SearchOptimalTree(found: T) returns (call: Option<SearchCall<Tag, L>>, r: Option<T>)
      modifies this`explorer, this`tree
      ensures call.Some? <==> TreeStrategy(metaheuristics).Some?
      ensures call.Some? ==> call.value == SearchCall(TreeStrategy(metaheuristics).value, minerProxy, slog, order,
                                                      MAXIT, NEIGHBOURHOOD, TIMEOUT, modelName)
      ensures call.Some? ==> explorer == TreeStrategy(metaheuristics) && tree == Some(found)
      ensures call.None? ==> explorer == old(explorer) && tree == old(tree)
      ensures r == tree
    {
      call := None;
      match metaheuristics {
        case RLSTree =>
          explorer := Some(Repeated);
          call := Some(SearchCall(Repeated, minerProxy, slog, order, MAXIT, NEIGHBOURHOOD, TIMEOUT, modelName));
          tree := Some(found);
        case ILSTree =>
          explorer := Some(Iterated);
          call := Some(SearchCall(Iterated, minerProxy, slog, order, MAXIT, NEIGHBOURHOOD, TIMEOUT, modelName));
          tree := Some(found);
        case TSTree =>
          explorer := Some(Tabu);
          call := Some(SearchCall(Tabu, minerProxy, slog, order, MAXIT, NEIGHBOURHOOD, TIMEOUT, modelName));
          tree := Some(found);
        case SATree =>
          explorer := Some(Annealing);
          call := Some(SearchCall(Annealing, minerProxy, slog, order, MAXIT, NEIGHBOURHOOD, TIMEOUT, modelName));
          tree := Some(found);
        case _ =>
      }
      r := tree;
    }
  }
}
