/** Ruby values and exception classes, as far as the file properties and the
    agent's run logic observe them. */
module RubyValues {

  datatype Option<+T> = None | Some(value: T)

  /** The exception classes that the modelled code raises, rescues or lets through. */
  datatype Error =
    | PuppetError         // Puppet::Error
    | DevError            // Puppet::DevError
    | ArgumentError
    | TypeError
    | NoMethodError
    | CommandHookError    // Puppet::Configurer::CommandHookError
    | OtherStandardError  // any other StandardError raised by a collaborator
    | SystemExit
    | NoMemoryError
    | OtherException      // an Exception outside StandardError (Interrupt, SignalException, ...)
  {
    /** What a bare `rescue => detail` catches: the StandardError subclasses. */
    predicate IsStandard() { !(SystemExit? || NoMemoryError? || OtherException?) }

    /** What every `rescue SystemExit, NoMemoryError; raise` site lets through. */
    predicate IsFatal() { SystemExit? || NoMemoryError? }
  }

  /** A value, or the exception that computing it raised. */
  datatype Result<+T> = Ok(value: T) | Err(error: Error)

  /** A call made for its effect: it returned, or it raised. */
  datatype Outcome = Pass | Fail(error: Error)

  /** A Ruby object of one of the classes these properties handle. `Other` is an
      object of a class with none of the operations used here (no `&`, `|`,
      `to_int` or `to_str`). */
  datatype RValue =
    | Nil
    | Bool(b: bool)
    | Int(i: int)
    | Str(s: string)
    | Sym(name: string)
    | Other

  /** Ruby truthiness: everything except nil and false. */
  predicate Truthy(v: RValue) {
    v != Nil && v != Bool(false)
  }

  /** The `:notfound` sentinel a property records when its file is missing. */
  const NotFound: RValue := Sym("notfound")
}
