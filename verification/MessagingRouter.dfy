/** The router that maps subjects to task handlers. */
module MessagingRouter {
  import opened Wrappers
  import opened Subjects

  /** What a handler returns for a task: nil, an application error, or any other error. */
  datatype Outcome = Handled | AppError(message: string) | Retriable(message: string)

  function Lookup<H>(routes: map<string, H>, subject: string): Option<H> {
    if subject in routes then Some(routes[subject]) else None
  }

  /** messaging_router: one handler per subject. */
  class Router<H> {
    var routes: map<string, H>

    constructor ()
      ensures routes == map[]
    {
      routes := map[];
    }

    /** A second registration of a subject panics and changes nothing. */
    method Register(subject: string, h: H) returns (panics: bool)
      modifies this
      ensures panics <==> subject in old(routes)
      ensures routes == if panics then old(routes) else old(routes)[subject := h]
    {
      panics := subject in routes;
      if !panics {
        routes := routes[subject := h];
      }
    }

    /** Every registered subject once, in an unspecified order. */
    method Subjects() returns (subjects: seq<string>)
      ensures Distinct(subjects)
      ensures forall s :: s in subjects <==> s in routes
    {
      subjects := [];
      var left := routes.Keys;
      while left != {}
        invariant left <= routes.Keys && Distinct(subjects)
        invariant forall s :: s in subjects <==> s in routes.Keys - left
        decreases left
      {
        var s :| s in left;
        assert s !in subjects;
        subjects := subjects + [s];
        left := left - {s};
      }
    }

    /**
     Calls the handler of the subject; a message on any other subject is skipped with a nil error. answer is what each
     handler returns if it is called with this message.
     */
    method Handle(subject: string, answer: H -> Outcome) returns (outcome: Outcome, ghost called: Option<H>)
      ensures called == Lookup(routes, subject)
      ensures outcome == if called.Some? then answer(called.value) else Handled
    {
      called := None;
      outcome := Handled;
      if subject in routes {
        called := Some(routes[subject]);
        outcome := answer(routes[subject]);
      }
    }
  }
}
