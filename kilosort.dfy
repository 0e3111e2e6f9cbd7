/** The execution adapter (run_kilosort): merge the configured settings with the probe's
    channel count, then hand them to the external pipeline. Loading the probe file and the
    pipeline itself are foreign code and appear here only as oracles. */
module Kilosort {
  import opened Options

  /** The key under which the probe reports its channel count. */
  const ChannelCountKey: string := "n_chan"
  /** The settings key the pipeline reads the channel count from. */
  const ChannelBinKey: string := "n_chan_bin"
  /** The message run_kilosort returns when the pipeline comes back normally. */
  const FinishedMessage: string := "Kilosort finished"

  /** How a call of the job ends: a returned message, an `Exception` (which the poll loop
      catches), or a `BaseException` outside `Exception`, such as `SystemExit`, which the
      poll loop's `except Exception` does not catch. */
  datatype JobOutcome = Returned(message: string) | Raised | Escaped

  /** How the external pipeline call ends. */
  datatype PipelineExit = ReturnsNormally | RaisesException | RaisesBaseException

  /** What run_kilosort depends on beyond its three paths: the configured settings,
      `kilosort.io.load_probe` (None when it raises) and `kilosort.run_kilosort`, which
      receives the settings, the data file, the loaded probe and the results folder. */
  datatype Environment<!V> = Environment(
    settings: map<string, V>,
    loadProbe: string -> Option<map<string, V>>,
    pipeline: (map<string, V>, string, map<string, V>, string) -> PipelineExit)

  /** A copy of the configured settings whose channel-count entry comes from the probe; the
      lookup in the probe raises (None here) when the probe has no channel count. */
  function MergeSettings<V>(settings: map<string, V>, probe: map<string, V>): (r: Option<map<string, V>>)
    ensures r.None? <==> ChannelCountKey !in probe
    ensures r.Some? ==> r.value.Keys == settings.Keys + {ChannelBinKey}
    ensures r.Some? ==> r.value[ChannelBinKey] == probe[ChannelCountKey]
    ensures r.Some? ==> forall k :: k in settings && k != ChannelBinKey ==> r.value[k] == settings[k]
  {
    if ChannelCountKey in probe then Some(settings[ChannelBinKey := probe[ChannelCountKey]]) else None
  }

  /** run_kilosort(data_file, results_dir, probe_file): load the probe, merge the settings,
      run the pipeline on them with the same paths. */
  function RunKilosort<V>(env: Environment<V>, dataFile: string, resultsDir: string, probeFile: string): (o: JobOutcome)
    ensures o.Returned? ==> o.message == FinishedMessage
    ensures o.Returned? <==>
              env.loadProbe(probeFile).Some? &&
              MergeSettings(env.settings, env.loadProbe(probeFile).value).Some? &&
              env.pipeline(MergeSettings(env.settings, env.loadProbe(probeFile).value).value,
                           dataFile, env.loadProbe(probeFile).value, resultsDir) == ReturnsNormally
    ensures o.Escaped? <==>
              env.loadProbe(probeFile).Some? &&
              MergeSettings(env.settings, env.loadProbe(probeFile).value).Some? &&
              env.pipeline(MergeSettings(env.settings, env.loadProbe(probeFile).value).value,
                           dataFile, env.loadProbe(probeFile).value, resultsDir) == RaisesBaseException
  {
    match env.loadProbe(probeFile)
    case None => Raised
    case Some(probe) =>
      match MergeSettings(env.settings, probe)
      case None => Raised
      case Some(merged) =>
        match env.pipeline(merged, dataFile, probe, resultsDir)
        case ReturnsNormally => Returned(FinishedMessage)
        case RaisesException => Raised
        case RaisesBaseException => Escaped
  }

  /** The configured channel count never matters: two configurations that differ at most in
      `n_chan_bin` give the same job outcome, because the probe's value overrides it. */
  lemma {:induction false} ConfiguredChannelCountIsOverridden<V>(
    env: Environment<V>, other: map<string, V>, dataFile: string, resultsDir: string, probeFile: string)
    requires env.settings - {ChannelBinKey} == other - {ChannelBinKey}
    ensures RunKilosort(env, dataFile, resultsDir, probeFile) ==
            RunKilosort(env.(settings := other), dataFile, resultsDir, probeFile)
  {
    match env.loadProbe(probeFile)
    case None =>
    case Some(probe) =>
      if ChannelCountKey in probe {
        var a := MergeSettings(env.settings, probe).value;
        var b := MergeSettings(other, probe).value;
        forall k | k in env.settings && k != ChannelBinKey
          ensures k in other && other[k] == env.settings[k]
        {
          assert k in env.settings - {ChannelBinKey};
        }
        forall k | k in other && k != ChannelBinKey
          ensures k in env.settings
        {
          assert k in other - {ChannelBinKey};
        }
        assert a.Keys == b.Keys;
        assert a == b;
      }
  }
}
