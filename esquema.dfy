/** The columns of each table besides the key and the name, and the singleton labour
    configuration (`configuracoes`). */
module Esquema {

  /** materiais: unit of measure, quantity acquired, cost of that quantity. */
  datatype DadosMaterial = DadosMaterial(unidade: string, quantidadeAdquirida: real, custoTotal: real)

  /** tecidos: length and width acquired (cm) and their cost. */
  datatype DadosTecido = DadosTecido(comprimentoTotal: real, larguraTotal: real, custoTotal: real)

  /** pecas: production time in hours and the last suggested price saved (a cached value). */
  datatype DadosPeca = DadosPeca(tempoProducaoHoras: real, precoSugerido: real)

  /** One row of configuracoes: hourly labour rate and profit margin in percent. */
  datatype Configuracao = Configuracao(valorHora: real, margemLucro: real)

  /** The value used when configuracoes has no row with id 1. */
  const ConfiguracaoPadrao := Configuracao(0.0, 0.0)

  /** `carregar_configuracoes`: the row with id 1, or the zero default when there is none. */
  function CarregarConfiguracoes(cfgs: map<int, Configuracao>): (c: Configuracao)
    ensures 1 in cfgs ==> c == cfgs[1]
    ensures 1 !in cfgs ==> c.valorHora == 0.0 && c.margemLucro == 0.0
  {
    if 1 in cfgs then cfgs[1] else ConfiguracaoPadrao
  }
}
