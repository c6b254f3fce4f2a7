/**
 * `errorHandler` and `notFoundHandler`: how an error that reaches the end of the middleware
 * chain becomes a response, and the answer for a route nobody handles.
 */
module ErrorHandling {
  import opened Wrappers
  import opened Text

  /** A thrown error: an `AppError` carries its own status; any error has a name and a message. */
  datatype Thrown = Thrown(isAppError: bool, statusCode: int, name: string, message: string, stack: Option<string>)

  /** The body `{ success: false, error, details?, stack? }` and its status. */
  datatype ErrorReply = ErrorReply(status: int, error: string, details: Option<string>, stack: Option<string>)

  /** The status, message and details the `if`/`else if` chain settles on. */
  datatype Verdict = Verdict(status: int, message: string, details: Option<string>)

  /** An error class recognised by its name, checked before any message. */
  function ByName(name: string): Option<Verdict> {
    if name == "JsonWebTokenError" then Some(Verdict(401, "Invalid token", None))
    else if name == "TokenExpiredError" then Some(Verdict(401, "Token expired", None))
    else if name == "DatabaseError" then Some(Verdict(500, "Database error", None))
    else None
  }

  /** The chain of `errorHandler`, down to the last `else if`. */
  function Classify(e: Thrown): Verdict {
    if e.isAppError then Verdict(e.statusCode, e.message, None)
    else if e.name == "ValidationError" then Verdict(400, "Validation failed", Some(e.message))
    else if ByName(e.name).Some? then ByName(e.name).value
    else if Contains(e.message, "duplicate key value") then Verdict(409, "Resource already exists", None)
    else if Contains(e.message, "foreign key constraint") then Verdict(400, "Invalid reference", None)
    else if Contains(e.message, "File too large") then Verdict(413, "File too large", None)
    else if Contains(e.message, "Unexpected field") then Verdict(400, "Invalid file field", None)
    else if Contains(e.message, "Too many requests") then Verdict(429, "Too many requests", None)
    else Verdict(500, "Internal server error", None)
  }

  /** The substring rules as a table, tried in order; the first that matches decides. */
  datatype Rule = Rule(fragment: string, status: int, message: string)

  const MessageRules: seq<Rule> := [
    Rule("duplicate key value", 409, "Resource already exists"),
    Rule("foreign key constraint", 400, "Invalid reference"),
    Rule("File too large", 413, "File too large"),
    Rule("Unexpected field", 400, "Invalid file field"),
    Rule("Too many requests", 429, "Too many requests")]

  function FirstRule(rules: seq<Rule>, message: string): (r: Option<nat>)
    ensures r.Some? ==> r.value < |rules| && Contains(message, rules[r.value].fragment) &&
                        forall k :: 0 <= k < r.value ==> !Contains(message, rules[k].fragment)
    ensures r.None? ==> forall k :: 0 <= k < |rules| ==> !Contains(message, rules[k].fragment)
  {
    if rules == [] then None
    else if Contains(message, rules[0].fragment) then Some(0)
    else
      match FirstRule(rules[1..], message)
      case None => None
      case Some(k) => Some(k + 1)
  }

  /**
   * An error that is neither an `AppError` nor named is decided by the first rule whose
   * fragment its message contains, and is a 500 'Internal server error' when none does.
   */
  lemma MessageRulesDecide(e: Thrown)
    requires !e.isAppError && e.name != "ValidationError" && ByName(e.name).None?
    ensures var k := FirstRule(MessageRules, e.message);
            Classify(e) == if k.Some? then Verdict(MessageRules[k.value].status, MessageRules[k.value].message, None)
                           else Verdict(500, "Internal server error", None)
  {
    var k := FirstRule(MessageRules, e.message);
    var m := e.message;
    var n := if k.Some? then k.value else 5;
    if n > 0 { assert !Contains(m, MessageRules[0].fragment); }
    if n > 1 { assert !Contains(m, MessageRules[1].fragment); }
    if n > 2 { assert !Contains(m, MessageRules[2].fragment); }
    if n > 3 { assert !Contains(m, MessageRules[3].fragment); }
    if n > 4 { assert !Contains(m, MessageRules[4].fragment); }
  }

  /**
   * An `AppError` keeps its status and message whatever its name and message say, and a
   * named error is decided by its name whatever its message says.
   */
  lemma OrderOfChecks(e: Thrown)
    ensures e.isAppError ==> Classify(e) == Verdict(e.statusCode, e.message, None)
    ensures !e.isAppError && e.name == "ValidationError" ==> Classify(e) == Verdict(400, "Validation failed", Some(e.message))
    ensures !e.isAppError && e.name == "JsonWebTokenError" ==> Classify(e) == Verdict(401, "Invalid token", None)
    ensures !e.isAppError && e.name == "TokenExpiredError" ==> Classify(e) == Verdict(401, "Token expired", None)
    ensures !e.isAppError && e.name == "DatabaseError" ==> Classify(e) == Verdict(500, "Database error", None)
  {
  }

  /** `errorHandler`, with `NODE_ENV` as a parameter. */
  function HandleError(e: Thrown, nodeEnv: Option<string>): ErrorReply {
    var v := Classify(e);
    var message := if nodeEnv == Some("production") && v.status == 500 then "Something went wrong" else v.message;
    var details := if v.details.Some? && v.details.value != "" then v.details else None;
    var stack := if nodeEnv == Some("development") && v.status == 500 then e.stack else None;
    ErrorReply(v.status, message, details, stack)
  }

  /**
   * The response keeps the chain's status; in production every 500 says only 'Something
   * went wrong', and no other message is touched; `details` comes only from a validation
   * error with a message, and `stack` only in development with a 500.
   */
  lemma HandleErrorMasks(e: Thrown, nodeEnv: Option<string>)
    ensures HandleError(e, nodeEnv).status == Classify(e).status
    ensures HandleError(e, nodeEnv).error ==
            if nodeEnv == Some("production") && Classify(e).status == 500 then "Something went wrong" else Classify(e).message
    ensures HandleError(e, nodeEnv).details.Some? <==> !e.isAppError && e.name == "ValidationError" && e.message != ""
    ensures HandleError(e, nodeEnv).stack.Some? ==> nodeEnv == Some("development") && HandleError(e, nodeEnv).status == 500
    ensures nodeEnv == Some("development") && Classify(e).status == 500 ==> HandleError(e, nodeEnv).stack == e.stack
  {
    if !e.isAppError && e.name != "ValidationError" {
      assert Classify(e).details.None?;
    }
  }

  /** Apart from an `AppError`'s own status, only 400, 401, 409, 413, 429 and 500 come out. */
  lemma HandleErrorStatuses(e: Thrown, nodeEnv: Option<string>)
    ensures !e.isAppError ==> HandleError(e, nodeEnv).status in {400, 401, 409, 413, 429, 500}
  {
  }

  /** The body of `notFoundHandler`. */
  datatype NotFoundReply = NotFoundReply(status: int, error: string, path: string, verb: string)

  /** `notFoundHandler`: always 404 'Route not found', echoing the path and the HTTP method. */
  function NotFound(url: string, verb: string): (r: NotFoundReply)
    ensures r.status == 404 && r.error == "Route not found"
    ensures r.path == url && r.verb == verb
  {
    NotFoundReply(404, "Route not found", url, verb)
  }
}
