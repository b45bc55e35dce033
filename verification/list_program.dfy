/** From a successful link to the values a program reads: collecting, emitting, linking and walking in one statement. */
module ListPrograms {
  import opened MachineWords
  import opened Linking
  import opened ListLiterals
  import opened StaticData
  import opened ListImage
  import opened DataGeneration

  /** The labels of the lists are no runtime functions, and their addresses have 64 bits. */
  ghost predicate Addressable(runtime: map<string, nat>, r: LinkState, infos: seq<ListInfo>) {
    forall k :: 0 <= k < |infos| ==>
      && infos[k].length < TWO_64 && NameAddressable(runtime, r, infos[k].header)
      && forall i :: 0 <= i < |infos[k].nodes| ==> NameAddressable(runtime, r, infos[k].nodes[i].symbol)
  }

  ghost predicate NameAddressable(runtime: map<string, nat>, r: LinkState, name: string) {
    name != "" && name !in runtime && (name in r.labels ==> r.labels[name] < TWO_64)
  }

  /** The lists of a linked program stand in its memory, each at the address of its label. */
  lemma LiteralLinked(
    patch: Patcher, runtime: map<string, nat>, stream: seq<Instruction>, base: nat, dataBase: nat, at: nat, literals: seq<seq<Item>>, k: nat)
    requires Link(patch, runtime, stream, base, dataBase).Ok? && k < |literals|
    requires Sub(stream, at, EmitLists(AddAll(NO_LISTS, literals).0.infos))
    requires Addressable(runtime, Link(patch, runtime, stream, base, dataBase).value, AddAll(NO_LISTS, literals).0.infos)
    ensures
      var r := Link(patch, runtime, stream, base, dataBase).value;
      var symbol := AddAll(NO_LISTS, literals).1[k];
      symbol in r.labels && Represents(Image(r.out, |r.out|), r.labels[symbol], literals[k])
  {
    hide Link, Consistent, Represents, Sub, Image, AddAll;
    var r := Link(patch, runtime, stream, base, dataBase).value;
    var infos := AddAll(NO_LISTS, literals).0.infos;
    var labels := LinkConsistent(patch, runtime, stream, base, dataBase);
    var l := Linked(stream, runtime, labels, r.out);
    forall j | 0 <= j < |infos| ensures OrdinaryList(l, infos[j]) {
    }
    LiteralsRepresented(l, at, literals, k);
  }

  /**
    Whenever a stream that carries the emitted lists links, walking the list at the label of a literal in the
    linked image reads that literal back.
   */
  method ReadLiteral(
    patch: Patcher, runtime: map<string, nat>, stream: seq<Instruction>, base: nat, dataBase: nat, ghost at: nat, literals: seq<seq<Item>>, k: nat)
    returns (items: seq<Item>)
    requires Link(patch, runtime, stream, base, dataBase).Ok? && k < |literals| && Fits(literals[k])
    requires Sub(stream, at, EmitLists(AddAll(NO_LISTS, literals).0.infos))
    requires Addressable(runtime, Link(patch, runtime, stream, base, dataBase).value, AddAll(NO_LISTS, literals).0.infos)
    ensures items == literals[k]
  {
    hide Link, Represents, Sub, Image, AddAll, Addressable;
    LiteralLinked(patch, runtime, stream, base, dataBase, at, literals, k);
    var r := Link(patch, runtime, stream, base, dataBase).value;
    items := ReadList(Image(r.out, |r.out|), r.labels[AddAll(NO_LISTS, literals).1[k]], literals[k]);
  }
}
