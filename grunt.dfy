/**
 * What the orchestrator exchanges with the host task runner and with the
 * code it cannot see: the fatal errors it reports, the registration calls it
 * makes, the module descriptors it builds, and the host itself as a record
 * of functions.
 */
module Grunt {
  import opened Js

  /** Each reason the source calls `grunt.fail.fatal`, and the TypeErrors it can throw. */
  datatype Error =
    | InvalidScanType                            // 'Invalid scan type, must be object/array'
    | InvalidOptionsType                         // 'Invalid options type, must be object'
    | InvalidConfigValue                         // 'invalid config value, must be object'
    | InvalidPrefixType                          // 'invalid prefix type, must be string/regExp/function'
    | UndefinedTask(alias: string, task: string) // '<alias>: undefined task "<task>"'
    | TypeError                                  // a property read on null/undefined, or `.replace` on a non-string cwd
    | ModuleThrew                                // a module's exported function (or loading it) threw

  /** The calls on the host runner that the pipeline records. */
  datatype Call =
    | RegisterTask(name: string, tasks: seq<string>)   // grunt.task.registerTask(name, tasks)
    | InitConfig(config: map<string, Value>)           // grunt.initConfig(config)

  /** One discovered module file: `{path, modulePath, cwd, prefix}`. */
  datatype Descriptor = Descriptor(path: string, modulePath: string, cwd: string, prefix: Value)

  /**
   * The state shared by the modules of one run: the aggregate configuration
   * (which modules read), the alias table and the reference table.
   */
  datatype Tables = Tables(config: map<string, Value>, aliases: map<string, seq<string>>, refs: map<string, Value>)

  /**
   * What running one module leaves behind: the tables it wrote and the
   * fragment it returned, or an exception (its file does not load, its
   * export is not a function, or the function throws).
   */
  datatype Effect =
    | Effect(aliases: map<string, seq<string>>, refs: map<string, Value>, returned: Value)
    | Threw

  /**
   * The foreign collaborators, as functions of their inputs:
   * - expand: `grunt.file.expand(scan, scan.src)`, the relative paths a scan matches, in match order;
   * - isPathAbsolute: `grunt.file.isPathAbsolute`;
   * - processCwd: `process.cwd()`;
   * - joinPaths: `utils.joinPaths(cwd, fPath)`;
   * - regexReplace: `fPath.replace(re, '$1')` for a regular-expression prefix `re`;
   * - callPrefix: `f(fPath, cwd)` for a function prefix `f`;
   * - exec: `require(modulePath).call(context, grunt, options)` together with what the
   *   module writes through its context into the alias and reference tables;
   * - flushed: `flushConfig()` of the override shim;
   * - registered: the keys of `registered()` of the override shim.
   */
  datatype Host = Host(
    expand: Value -> seq<string>,
    isPathAbsolute: string -> bool,
    processCwd: string,
    joinPaths: (string, string) -> string,
    regexReplace: (Value, string) -> string,
    callPrefix: (Value, string, string) -> Value,
    exec: (Descriptor, Tables, map<string, Value>) -> Effect,
    flushed: Value,
    registered: seq<string>)
}
