/** The module-level names of the modules the statistics classes are built
    from, and Python's rules for `from m import x`, `from m import *` and a
    global name looked up inside a function body: enough to tell which
    import statement and which global lookup of the core succeeds. */
module Imports {
  import opened Wrappers

  /** The names a module binds at its top level. */
  type Namespace = set<string>

  /** A name that `from m import *` skips in a module without `__all__`. */
  predicate Private(x: string) {
    |x| > 0 && x[0] == '_'
  }

  /** `from m import *`, `m` having no `__all__`: every public name of `m`. */
  function Star(ns: Namespace): (r: Namespace)
    ensures r <= ns
    ensures forall x :: x in ns ==> (x in r <==> !Private(x))
  {
    set x | x in ns && !Private(x)
  }

  /** `from m import x`: binds `x`, or raises `ImportError` when `m` has no
      `x` (a submodule not imported by the package counts as missing). */
  function FromImport(ns: Namespace, x: string): (r: Result<Namespace>)
    ensures r.Ok? <==> x in ns
    ensures r.Ok? ==> r.value == {x}
    ensures r.Err? ==> r.error == ImportError
  {
    if x in ns then Ok({x}) else Err(ImportError)
  }

  /** A global name read inside a function body: it resolves when the
      module binds it, and raises `NameError` otherwise. */
  function Global(globals: Namespace, x: string): (r: Result<string>)
    ensures r.Ok? <==> x in globals
    ensures r.Ok? ==> r.value == x
    ensures r.Err? ==> r.error == NameError
  {
    if x in globals then Ok(x) else Err(NameError)
  }

  // ---------------------------------------------------------------------
  // The namespaces

  /** corpus/utils.py. */
  const Utils: Namespace := {"os", "shutil", "SnowballStemmer", "corpora", "_fail", "build_keys",
    "num_dict", "list_dict", "gensim_dict", "determine_year", "stem", "build_out"}

  /** The package corpus/graph (its `__init__.py`), which never imports its
      module `clusters`. */
  const GraphPackage: Namespace := {"plt", "np", "json", "GraphFrequency"}

  /** corpus/graph/clusters.py. */
  const GraphClustersModule: Namespace := {"plt", "c", "np", "GraphClusters"}

  /** The classes corpus/results.py defines. */
  const ResultsClasses: Namespace := {"Results", "FrequencyResults", "TopResults", "TfidfResults",
    "TopicResults", "DiffPropResults", "ScoreMatResults", "ClusterResults"}

  /** Importing corpus/results.py, whose line 8 imports `GraphClusters`
      from the namespace `graph`: its globals, or the error raised. */
  function ResultsGlobals(graph: Namespace): (r: Result<Namespace>)
    ensures r.Ok? <==> "GraphClusters" in graph
    ensures r.Ok? ==> Star(Utils) + {"GraphClusters"} + ResultsClasses <= r.value
    ensures r.Ok? ==> forall x :: x in r.value ==>
      (x in Utils || x in ResultsClasses || x in {"np", "json", "re", "defaultdict", "OrderedDict", "GraphClusters"})
    ensures r.Err? ==> r.error == ImportError
  {
    match FromImport(graph, "GraphClusters")
    case Err(e) => Err(e)
    case Ok(g) => Ok({"np", "json", "re", "defaultdict", "OrderedDict"} + Star(Utils) + g + ResultsClasses)
  }

  /** Importing a module that star-imports corpus/results.py: its own
      names joined with the public names of results, or the error raised
      while importing results. */
  function WithResults(own: Namespace, graph: Namespace): (r: Result<Namespace>)
    ensures r.Ok? <==> ResultsGlobals(graph).Ok?
    ensures r.Ok? ==> r.value == own + Star(ResultsGlobals(graph).value)
    ensures r.Err? ==> r == Err(ImportError)
  {
    match ResultsGlobals(graph)
    case Err(e) => Err(e)
    case Ok(res) => Ok(own + Star(res))
  }

  /** corpus/nlp/frequency.py, given what corpus/results.py imports from. */
  function FrequencyGlobals(graph: Namespace): Result<Namespace>
  {
    WithResults({"tqdm", "nltk", "math", "Frequency"}, graph)
  }

  /** corpus/nlp/tf_idf_author.py, given what corpus/results.py imports
      from. */
  function TfidfAuthorGlobals(graph: Namespace): Result<Namespace>
  {
    WithResults({"np", "TfidfModel", "Dictionary", "TfidfAuthor"}, graph)
  }

  // ---------------------------------------------------------------------
  // What fails, and the corrected imports

  /** As written, importing corpus/results.py raises `ImportError`, and so
      does importing any module that imports it, such as
      corpus/nlp/frequency.py and corpus/nlp/tf_idf_author.py. */
  lemma ResultsImportFails()
    ensures ResultsGlobals(GraphPackage) == Err(ImportError)
    ensures FrequencyGlobals(GraphPackage) == Err(ImportError)
    ensures TfidfAuthorGlobals(GraphPackage) == Err(ImportError)
  {
    assert "GraphClusters" !in GraphPackage;
  }

  /** Importing `GraphClusters` from the module that defines it
      (`from corpus.graph.clusters import GraphClusters`) succeeds, and
      results then binds the public helpers of corpus/utils.py but not its
      private `_fail`. */
  lemma ResultsImportFixed()
    ensures ResultsGlobals(GraphClustersModule).Ok?
    ensures var g := ResultsGlobals(GraphClustersModule).value;
      && "GraphClusters" in g && "build_keys" in g && "num_dict" in g && "determine_year" in g
      && "_fail" !in g
  {
    assert "GraphClusters" in GraphClustersModule;
    var g := ResultsGlobals(GraphClustersModule).value;
    assert "build_keys" in Utils && "num_dict" in Utils && "determine_year" in Utils;
    assert Private("_fail");
  }

  /** A name that neither a module's own imports and definitions, nor
      results, nor corpus/utils.py binds is unbound in that module. */
  lemma Unbound(x: string, own: Namespace)
    requires x !in own && x !in Utils && x !in ResultsClasses
    requires x !in {"np", "json", "re", "defaultdict", "OrderedDict", "GraphClusters"}
    ensures WithResults(own, GraphClustersModule).Ok?
    ensures x !in WithResults(own, GraphClustersModule).value
  {
    assert "GraphClusters" in GraphClustersModule;
    var res := ResultsGlobals(GraphClustersModule).value;
    assert x !in res;
  }

  /** `Frequency.__init__` (corpus/nlp/frequency.py line 28) calls the
      global `setup_stop_words`, which no module binds: even with the import
      of results corrected, constructing a `Frequency` raises `NameError`. */
  lemma FrequencyInitNameError()
    ensures FrequencyGlobals(GraphClustersModule).Ok?
    ensures Global(FrequencyGlobals(GraphClustersModule).value, "setup_stop_words") == Err(NameError)
  {
    ResultsImportFixed();
    var res := ResultsGlobals(GraphClustersModule).value;
    Unbound("setup_stop_words", {"tqdm", "nltk", "math", "Frequency"});
  }

  /** `TfidfAuthor.generating_author_dict` (corpus/nlp/tf_idf_author.py
      line 72) reads the global `tqdm`, which tf_idf_author.py never
      imports and results does not re-export: the method raises `NameError`
      even with the import of results corrected. corpus/nlp/frequency.py,
      which imports `tqdm` itself, resolves the same name. */
  lemma TqdmNameError()
    ensures TfidfAuthorGlobals(GraphClustersModule).Ok?
    ensures Global(TfidfAuthorGlobals(GraphClustersModule).value, "tqdm") == Err(NameError)
    ensures Global(FrequencyGlobals(GraphClustersModule).value, "tqdm") == Ok("tqdm")
  {
    ResultsImportFixed();
    var res := ResultsGlobals(GraphClustersModule).value;
    Unbound("tqdm", {"np", "TfidfModel", "Dictionary", "TfidfAuthor"});
    assert "tqdm" in FrequencyGlobals(GraphClustersModule).value;
  }
}
