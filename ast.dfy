/** The abstract syntax tree the engine runs (pkg/types/ast.go).

    Go models nodes as pointers behind a `Node` interface; here a node is an
    immutable value of a closed datatype. `IfNode`, `ForNode`, `WhileNode`,
    `AssignmentNode` and `FunctionNode` are read by the engine but not declared in
    the modelled files: their fields are the ones the engine reads. */
module Ast {
  import opened Wrappers

  datatype Position = Position(line: int, column: int, offset: int)

  /** `RedirectNode`: operator, target file and file descriptor. */
  datatype RedirectNode = RedirectNode(pos: Position, op: string, file: string, fd: int)
  {
    /** `RedirectNode.String()` is the operator. */
    function String(): (s: string)
      ensures s == op
    {
      op
    }
  }

  /** `CommandNode`: a command name, its arguments and an optional redirect. */
  datatype CommandNode = CommandNode(pos: Position, name: string, args: seq<string>, redirect: Option<RedirectNode>)
  {
    /** `CommandNode.String()` is the command name. */
    function String(): (s: string)
      ensures s == name
    {
      name
    }
  }

  /** `ScriptNode`: the ordered top-level nodes of a script. */
  datatype ScriptNode = ScriptNode(pos: Position, nodes: seq<Node>)
  {
    function String(): (s: string)
      ensures s == "script"
    {
      "script"
    }
  }

  /** Every node kind the engine can meet; a `ScriptNode` and a `RedirectNode`
      are `Node`s too in Go, so they can appear where the engine expects a
      statement (and are rejected there). */
  datatype Node =
    | Command(cmd: CommandNode)
    | Pipe(pos: Position, left: Node, right: Node)
    | Redirect(redir: RedirectNode)
    | Script(script: ScriptNode)
    | If(pos: Position, condition: Node, thenBody: ScriptNode, elseBody: Option<ScriptNode>)
    | For(pos: Position, variable: string, list: seq<string>, body: ScriptNode)
    | While(pos: Position, condition: Node, body: ScriptNode)
    | Assignment(pos: Position, name: string, value: string)
    | FunctionDef(pos: Position, name: string, body: ScriptNode)
  {
    /** `Position()`: every node kind reports the position it stores. */
    function GetPosition(): (p: Position)
      ensures Command? ==> p == cmd.pos
      ensures Redirect? ==> p == redir.pos
      ensures Script? ==> p == script.pos
      ensures !Command? && !Redirect? && !Script? ==> p == pos
    {
      match this
      case Command(c) => c.pos
      case Redirect(r) => r.pos
      case Script(s) => s.pos
      case _ => pos
    }

    /** The four node kinds whose Go type declares a `String()` method. */
    predicate HasString() {
      Command? || Pipe? || Redirect? || Script?
    }

    /** `String()`: the name of a command, "|" for a pipe, the operator of a
        redirect, "script" for a script. */
    function String(): (s: string)
      requires HasString()
      ensures Command? ==> s == cmd.name
      ensures Pipe? ==> s == "|"
      ensures Redirect? ==> s == redir.op
      ensures Script? ==> s == "script"
    {
      match this
      case Command(c) => c.String()
      case Pipe(_, _, _) => "|"
      case Redirect(r) => r.String()
      case Script(s) => s.String()
    }

    /** The text Go's `%T` verb prints for a node's dynamic type. */
    function TypeName(): (s: string)
      ensures |s| > 7 && s[..7] == "*types."
    {
      match this
      case Command(_) => "*types.CommandNode"
      case Pipe(_, _, _) => "*types.PipeNode"
      case Redirect(_) => "*types.RedirectNode"
      case Script(_) => "*types.ScriptNode"
      case If(_, _, _, _) => "*types.IfNode"
      case For(_, _, _, _) => "*types.ForNode"
      case While(_, _, _) => "*types.WhileNode"
      case Assignment(_, _, _) => "*types.AssignmentNode"
      case FunctionDef(_, _, _) => "*types.FunctionNode"
    }
  }
}
