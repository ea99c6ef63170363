/** lib/error.js: the error thrown when a response fails status validation. */
module Errors {
  import opened Js

  class LikeFetchError {
    /** The `name` getter: the same for every instance. */
    const name: string := "LikeFetchError"
    const message: string
    const code: Value
    const response: Option<Response>
    /** Left undefined by the constructor; the orchestrator may fill it with the decoded body. */
    var body: Value

    constructor (msg: string, code: Value, response: Option<Response>)
      ensures message == msg && this.code == code && this.response == response
      ensures body == Undefined
    {
      message := msg;
      this.code := code;
      this.response := response;
      body := Undefined;
    }

    /** `error.body = ...` (index.js:55). */
    method SetBody(v: Value)
      modifies this
      ensures body == v
    {
      body := v;
    }

    /** The error as the value the orchestrator passes around. */
    function AsThrown(): (e: Thrown)
      reads this
      ensures e.name == "LikeFetchError"
      ensures e.message == message && e.code == code && e.response == response && e.body == body
    {
      Thrown(name, message, code, response, body)
    }
  }
}
