/** What the two core files read from the process environment and from the
    processes they spawn, given as plain inputs. */
module Environment {
  import opened Paths
  import opened RtResult

  /** The outcome of running `multirust show-override`. A program that could not
      be spawned is `NotSpawned`; one that ran, whatever its exit status, is
      `Spawned` with its standard output decoded as UTF-8, or `None` when that
      output is not valid UTF-8. */
  datatype MultirustRun = NotSpawned | Spawned(stdout: Option<string>)

  /** `home` is `env::home_dir()`; `cargoHome` and `rustSrcPath` are
      `env::var("CARGO_HOME")` and `env::var("RUST_SRC_PATH")`, `None` when the
      variable is unset or not valid Unicode. */
  datatype Env = Env(
    home: Option<Path>,
    cargoHome: Option<string>,
    rustSrcPath: Option<string>,
    multirust: MultirustRun)
}
