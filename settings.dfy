/** The switches a run is started with, and what the video library reports. */
module Settings {

  /**
   * `BASE_URL`, `FORCE` and `NO_VIDEO` (singularity.py:81-84), and for each
   * video link the title the video library reports for it; a link missing from
   * `videoTitle` is one for which the library raises.
   */
  datatype Config = Config(baseUrl: string, force: bool, noVideo: bool, videoTitle: map<string, string>)

  /**
   * `check_google_args` as written (singularity.py:483-485): the assignment
   * binds a local `FORCE`, so the global the Classroom handlers read keeps the
   * value it had, whatever the `-f` switch says.
   */
  function GoogleArgsAsWritten(cfg: Config, forceSwitch: bool): (r: Config)
    ensures r.force == cfg.force
    ensures r.(force := forceSwitch) == cfg.(force := forceSwitch)
  {
    cfg
  }

  /**
   * `check_google_args` as `check_brightspace_args` (singularity.py:459, 475-476)
   * does it: `FORCE` takes the `-f` switch and nothing else changes.
   */
  function GoogleArgs(cfg: Config, forceSwitch: bool): (r: Config)
    ensures r.force == forceSwitch
    ensures r.(force := cfg.force) == cfg
  {
    cfg.(force := forceSwitch)
  }

}
