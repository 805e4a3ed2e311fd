/**
 * The options record that the argument parser fills in (CLIOptions).
 */
module CLIOptions {

  /**
   * `modules` is written by the parser for `-m`/`--modules` but is missing
   * from the C++ declaration of the record; the model declares it, with the
   * same `false` default as the other flags.
   */
  datatype Options = Options(
    command: string,
    inputPath: string,   // "" means: auto-detect an input file
    outputDir: string,
    list: bool,
    help: bool,
    modules: bool,
    verbose: bool)

  /** A default-constructed record. */
  const Defaults := Options("", "", "output", false, false, false, false)
}
