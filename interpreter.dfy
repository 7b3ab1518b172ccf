/** Constants and small shared types of the interpreter's public header
    (standalone build, interpreter.h). */
module Interpreter {

  /** A value that may be missing: the model of a C pointer that may be NULL. */
  datatype Option<T> = None | Some(value: T)

  // Kernel status codes of the standalone build.
  const Ok: int := 1
  const SysErr: int := -1

  // Shell exit statuses.
  const ShellOk: int := 0
  const ShellError: int := 1
  const ShellExit: int := -1
  const ShellNotFound: int := 127

  // Shell buffer sizes and table capacities.
  const ShellMaxLine: int := 256
  const ShellMaxArgs: int := 32
  const ShellMaxCmd: int := 64
  const ShellMaxPath: int := 256
  const ShellHistorySize: int := 50
  const ShellMaxAlias: int := 32

  // Script context capacities.
  const ScriptMaxVars: int := 128
  const ScriptMaxFuncs: int := 64
  const ScriptMaxStack: int := 256
  const ScriptVarNameLen: int := 64
  const ScriptVarValLen: int := 256
  const ScriptMaxLine: int := 512
  const ScriptMaxLabels: int := 64
}
