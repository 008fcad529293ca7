/**
 * Argument lists for the ipset command-line tool: one builder per operation.
 * The mask of a set is given by its count of leading one bits (what the
 * source takes from the mask's Size), an IP address by its text form.
 */
module Ipset {
  import opened Wrappers
  import Strconv

  type SetType = string

  /** The hash:ip set type. */
  const SetTypeHashIP: SetType := "hash:ip"

  /** The operations whose argument lists this module builds. */
  datatype Op =
    | Version
    | SetCreate(setName: string, setType: SetType, netMaskOnes: Option<nat>, hashSize: int)
    | SetDelete(setName: string)
    | SetIPAdd(setName: string, ip: string)
    | SetIPRemove(setName: string, ip: string)

  /** Reads an argument list back into the operation it stands for. */
  function ParseOp(args: seq<string>): Option<Op> {
    if args == ["version"] then Some(Version)
    else if |args| == 2 && args[0] == "destroy" then Some(SetDelete(args[1]))
    else if |args| == 3 && args[0] == "add" then Some(SetIPAdd(args[1], args[2]))
    else if |args| == 3 && args[0] == "del" then Some(SetIPRemove(args[1], args[2]))
    else if |args| >= 3 && args[0] == "create" then ParseCreateFlags(args[1], args[2], args[3..])
    else None
  }

  /** The optional flags of a create: an optional netmask pair, then an optional hashsize pair. */
  function ParseCreateFlags(setName: string, setType: SetType, flags: seq<string>): Option<Op> {
    if |flags| >= 2 && flags[0] == "--netmask" then
      match Strconv.ParseInt(flags[1])
      case Some(ones) =>
        if ones >= 0 then ParseHashSize(setName, setType, Some(ones), flags[2..]) else None
      case None => None
    else ParseHashSize(setName, setType, None, flags)
  }

  function ParseHashSize(setName: string, setType: SetType, netMaskOnes: Option<nat>, flags: seq<string>): Option<Op> {
    if flags == [] then Some(SetCreate(setName, setType, netMaskOnes, 0))
    else if |flags| == 2 && flags[0] == "--hashsize" then
      match Strconv.ParseInt(flags[1])
      case Some(size) =>
        if size != 0 then Some(SetCreate(setName, setType, netMaskOnes, size)) else None
      case None => None
    else None
  }

  /** Prints the tool's version. */
  function OpVersion(): (args: seq<string>)
    ensures |args| == 1 && args[0] == "version"
    ensures ParseOp(args) == Some(Version)
  {
    ["version"]
  }

  /**
   * Creates a set: verb, name and type, then "--netmask" and the ones count
   * when a mask is given, then "--hashsize" and the size when it is not 0.
   */
  method OpSetCreate(setName: string, setType: SetType, netMaskOnes: Option<nat>, hashSize: int)
    returns (args: seq<string>)
    ensures |args| >= 3 && args[..3] == ["create", setName, setType]
    ensures args[3..]
         == (if netMaskOnes.Some? then ["--netmask", Strconv.Itoa(netMaskOnes.value)] else [])
          + (if hashSize != 0 then ["--hashsize", Strconv.Itoa(hashSize)] else [])
    ensures |args| in {3, 5, 7}
    ensures ParseOp(args) == Some(SetCreate(setName, setType, netMaskOnes, hashSize))
  {
    args := ["create", setName, setType];
    if netMaskOnes.Some? {
      var ones := netMaskOnes.value;
      args := args + ["--netmask", Strconv.Itoa(ones)];
      Strconv.ItoaRoundTrip(ones);
    }
    if hashSize != 0 {
      args := args + ["--hashsize", Strconv.Itoa(hashSize)];
      Strconv.ItoaRoundTrip(hashSize);
    }
  }

  /** Destroys a named set. */
  function OpSetDelete(setName: string): (args: seq<string>)
    ensures |args| == 2 && args[0] == "destroy" && args[1] == setName
    ensures ParseOp(args) == Some(SetDelete(setName))
  {
    ["destroy", setName]
  }

  /** Adds an IP entry to a named set. */
  function OpSetIPAdd(setName: string, ip: string): (args: seq<string>)
    ensures |args| == 3 && args[0] == "add" && args[1] == setName && args[2] == ip
    ensures ParseOp(args) == Some(SetIPAdd(setName, ip))
  {
    ["add", setName, ip]
  }

  /** Deletes an IP entry from a named set. */
  function OpSetIPRemove(setName: string, ip: string): (args: seq<string>)
    ensures |args| == 3 && args[0] == "del" && args[1] == setName && args[2] == ip
    ensures ParseOp(args) == Some(SetIPRemove(setName, ip))
  {
    ["del", setName, ip]
  }

  /** A create for the hash:ip type with no options is the three-word list, and decodes back. */
  lemma HashIPCreate(setName: string)
    ensures SetTypeHashIP == "hash:ip"
    ensures ParseOp(["create", setName, SetTypeHashIP]) == Some(SetCreate(setName, "hash:ip", None, 0))
  {
  }
}
